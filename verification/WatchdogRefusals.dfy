/** Exactly why a due poll is refused a restart, and exactly when the refusal is reported. */
module WatchdogRefusals {
  import opened Options
  import opened Watchdog
  import Breakers = WatchdogBreakers

  /** The reason reported last, since the last successful command or re-arm. */
  function LastReported(h: History): Option<SkipReason> {
    match h
    case Empty => None
    case Then(past, e) => Reported(LastReported(past), e)
  }

  function Reported(last: Option<SkipReason>, e: Event): Option<SkipReason> {
    match e
    case RestartSkipped(_, reason) => Some(reason)
    case Restart(_, o) => if o.Succeeded? || o.BrokeInert? then None else last
    case Recovered(_) => None
    case _ => last
  }

  /** Why a restart is refused at `gate`, read off the commands of the episode: maintenance before anything else, then
      an open breaker, then the 90 s after the last command, then the backoff after a failed one. */
  function RefusedFor(h: History, maintenance: bool, gate: int): Option<SkipReason> {
    var last := Breakers.EpisodeOf(h).last;
    if maintenance then Some(Maintenance)
    else if last.None? then None
    else
      var at, o := last.value.at, last.value.outcome;
      if o.Trips() then Some(CircuitBroken)
      else if gate < at + 90_000 then Some(Settle)
      else if o.FailuresAfter() > 0 && gate < at + Backoff(o.FailuresAfter()) then Some(InBackoff)
      else None
  }

  predicate Inv(w: World) { w.saved.skipMarker == LastReported(w.history) }

  /** The parts of a world that reports of refusals depend on. */
  predicate SameReports(a: World, b: World) {
    a.saved.skipMarker == b.saved.skipMarker && LastReported(a.history) == LastReported(b.history)
  }

  lemma AlertIsNoReport(w: World, key: AlertKey, at: int)
    ensures SameReports(w, SendDownAlert(w, key, at))
  {
  }

  lemma TryReports(w: World, i: Input)
    requires Inv(w) && i.StalePoll?
    ensures Inv(TryRestart(w, i))
  {
    var w1 := w.Did(GateChecked(i.at.gate, i.maintenance));
    assert SameReports(w, w1);
    match RestartGate(w.saved, i.maintenance, i.at.gate)
    case Some(reason) =>
      assert LastReported(Then(w1.history, RestartSkipped(i.at.gate, reason))) == Some(reason);
    case None =>
      var o := RestartOutcome(w.saved, i.exitOk);
      var w2 := w1.(saved := AfterRestart(w.saved, i.exitOk, i.at.restart)).Did(Restart(i.at.restart, o));
      assert LastReported(w2.history) == Reported(LastReported(w1.history), Restart(i.at.restart, o));
      AlertIsNoReport(w2, o.Key(), i.at.restart);
  }

  lemma CrashPathReports(w: World, i: Input)
    requires Inv(w) && i.StalePoll?
    ensures Inv(CrashPath(w, i).0)
  {
    var w1 := CountCrash(w, i.at);
    assert SameReports(w, w1);
    TryReports(w1, i);
    var w3 := BeforeNotify(w, i);
    assert SameReports(TryRestart(w1, i), w3);
    var w4 := MaybeNotifyOnly(w3, i.age, i.at.notify);
    AlertIsNoReport(w3, EngineDead, i.at.notify);
    assert SameReports(w3, w4);
    AlertIsNoReport(w4, Reping(HoursDown(w4.saved, i.at.gate)), i.at.gate);
    JudgingIsLocal(w, i);
  }

  lemma FreshReports(w: World, i: Input)
    requires Inv(w) && i.FreshPoll?
    ensures Inv(OnFresh(w, i))
  {
    var w1 := w.Did(StreakReset(i.recovered));
    assert SameReports(w, w1);
    if !w.mem.engineAlive {
      var h3 := if w.saved.notified then Then(w1.history, Resolved(i.resolved)) else w1.history;
      var h4 := if w.saved.alertKey.Some? then Then(h3, UpAlert(i.told)) else h3;
      assert OnFresh(w, i).history == Then(h4, Recovered(i.recovered));
    }
  }

  lemma HoldIsNoReport(w: World, cycles: nat, at: int)
    ensures SameReports(w, HoldRestart(w, cycles, at))
  {
    var first := if w.mem.holdSince.None? then at else w.mem.holdSince.value;
    assert LastReported(Then(w.history, StallSeen(first))) == LastReported(w.history);
  }

  lemma StepReports(w: World, i: Input)
    requires Inv(w)
    ensures Inv(Step(w, i).0)
  {
    match i
    case ProcessRestart(at) => assert SameReports(w, Step(w, i).0);
    case FreshPoll(_, _, _) => FreshReports(w, i);
    case StalePoll(_, _, _, _, _, _, at) =>
      match Judge(w, i)
      case Ignored =>
      case NetworkDown => assert SameReports(w, NoteOutage(w, at.probe));
      case StillAlive(cycles) => HoldIsNoReport(w, cycles, at.probe);
      case Crashed => CrashPathReports(w, i);
  }

  lemma {:induction false} RunReports(start: int, inputs: seq<Input>)
    ensures Inv(Run(Initial(start), inputs))
  {
    if inputs == [] {
      assert LastReported(Empty).None?;
    } else {
      var n := |inputs| - 1;
      RunReports(start, inputs[..n]);
      StepReports(Run(Initial(start), inputs[..n]), inputs[n]);
    }
  }

  lemma GateRefusesFor(s: Saved, h: History, t: int, maintenance: bool, gate: int)
    requires Breakers.Recorded(s, Breakers.EpisodeOf(h).last, t) && 0 <= t <= gate
    ensures RestartGate(s, maintenance, gate) == RefusedFor(h, maintenance, gate)
  {
  }

  /** At the gate of every poll after every run: a restart is refused exactly for the reason the history gives, and the
      refusal is reported if and only if another reason, or none, was reported last. */
  lemma RefusalIsReportedExactly(start: int, inputs: seq<Input>, i: Input)
    requires i.StalePoll? && Clocked(start, inputs) && EndOf(start, inputs) <= i.at.gate
    ensures var w := Run(Initial(start), inputs);
      var refused, h := RefusedFor(w.history, i.maintenance, i.at.gate),
                        Then(w.history, GateChecked(i.at.gate, i.maintenance));
      && (refused.Some? ==>
            TryRestart(w, i).history ==
              if LastReported(w.history) == refused then h else Then(h, RestartSkipped(i.at.gate, refused.value)))
      && (refused.None? ==> TryRestart(w, i) == TriggerRestart(w.(history := h), i.exitOk, i.at.restart))
  {
    RunReports(start, inputs);
    Breakers.RunKeeps(start, inputs);
    var w := Run(Initial(start), inputs);
    GateRefusesFor(w.saved, w.history, EndOf(start, inputs), i.maintenance, i.at.gate);
  }
}
