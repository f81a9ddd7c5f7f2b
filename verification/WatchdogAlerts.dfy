/** The notification protocol: which alerts may follow which events, over whole runs. */
module WatchdogAlerts {
  import opened Options
  import opened Watchdog

  /** The alert side of the current episode. `owed` is the alert that a breaker just opened still
      owes; `told` says that the last event was the all-clear. */
  datatype Alerts = Alerts(sent: nat, lastAt: Option<int>, trips: nat, breakerAlerts: nat,
                           notices: nat, noticeOpen: bool, owed: Option<Event>, told: bool, sound: bool)

  /** The protocol. */
  predicate Allowed(a: Alerts, e: Event) {
    && (a.owed.Some? ==> e == a.owed.value)
    && (a.told ==> e.Recovered?)
    && match e
       // A breaker opens at most once per episode, and is announced at once, exactly once.
       case Restart(_, o) => o.Trips() ==> a.trips == 0
       case DownAlert(at, Reping(_)) => a.trips == 1 && a.lastAt.Some? && at >= a.lastAt.value + RE_ALERT_INTERVAL
       case DownAlert(_, EngineDead) => a.sent == 0 && a.notices == 0
       case DownAlert(_, _) => a.owed == Some(e) && a.breakerAlerts == 0
       // At most one notice per episode, and it is resolved before the re-arm.
       case NotifyOnly(_) => a.notices == 0 && !a.noticeOpen && a.sent == 1
       case Resolved(_) => a.noticeOpen
       // The all-clear is sent exactly when this episode raised an alert.
       case UpAlert(_) => a.sent > 0
       case Recovered(_) => (a.told <==> a.sent > 0) && !a.noticeOpen
       case _ => true
  }

  function Next(a: Alerts, e: Event): Alerts {
    var b := a.(sound := a.sound && Allowed(a, e), owed := None, told := e.UpAlert?);
    match e
    case Recovered(_) => Alerts(0, None, 0, 0, 0, a.noticeOpen, None, false, b.sound)
    case Restart(at, o) =>
      if o.Trips() then b.(trips := a.trips + 1, owed := Some(DownAlert(at, o.Key()))) else b
    case DownAlert(at, key) =>
      b.(sent := a.sent + 1, lastAt := Some(at),
         breakerAlerts := a.breakerAlerts + if key.FailuresBroke? || key.InertBroke? then 1 else 0)
    case NotifyOnly(_) => b.(notices := a.notices + 1, noticeOpen := true)
    case Resolved(_) => b.(noticeOpen := false)
    case _ => b
  }

  function AlertsOf(h: History): Alerts {
    match h
    case Empty => Alerts(0, None, 0, 0, 0, false, None, false, true)
    case Then(past, e) => Next(AlertsOf(past), e)
  }

  ghost predicate AlertInv(s: Saved, a: Alerts) {
    && a.sound && a.owed.None? && !a.told
    && (s.alertKey.Some? <==> a.sent > 0)
    && s.alertedAt == a.lastAt
    && (s.alertedAt.Some? <==> s.alertKey.Some?) && (s.downSince.Some? <==> s.alertKey.Some?)
    && (!s.broken ==> s.alertKey == None || s.alertKey == Some(EngineDead))
    && (s.broken ==> s.alertKey.Some? && s.alertKey != Some(EngineDead))
    && (s.alertKey == Some(EngineDead) ==> s.notified)
    && (s.alertKey.Some? && s.alertKey.value.Reping? ==>
          s.alertKey.value.hoursDown == (s.alertedAt.value - s.downSince.value) / HOUR)
    && a.trips == a.breakerAlerts == (if s.broken then 1 else 0)
    && a.noticeOpen == s.notified
    && (s.notified ==> a.sent > 0)
    && a.notices == (if s.notified then 1 else 0)
    && (s.alertKey == Some(EngineDead) ==> a.sent == 1)
  }

  ghost predicate Inv(w: World) { AlertInv(w.saved, AlertsOf(w.history)) }

  /** The parts of a world that alerts depend on. */
  ghost predicate SameAlerts(a: World, b: World) {
    && AlertsOf(a.history) == AlertsOf(b.history)
    && a.saved.broken == b.saved.broken && a.saved.alertKey == b.saved.alertKey
    && a.saved.alertedAt == b.saved.alertedAt && a.saved.downSince == b.saved.downSince
    && a.saved.notified == b.saved.notified
  }

  lemma RestartKeepsAlerts(w: World, exitOk: bool, at: int)
    requires Inv(w) && !w.saved.broken
    ensures Inv(TriggerRestart(w, exitOk, at))
  {
    var o := RestartOutcome(w.saved, exitOk);
    var w1 := w.(saved := AfterRestart(w.saved, exitOk, at)).Did(Restart(at, o));
    assert AlertsOf(w1.history) == Next(AlertsOf(w.history), Restart(at, o));
  }

  lemma NotifyKeepsAlerts(w: World, age: int, at: int)
    requires Inv(w)
    ensures Inv(MaybeNotifyOnly(w, age, at))
  {
    var w1 := SendDownAlert(w, EngineDead, at);
    if w.saved.alertKey.None? {
      assert AlertsOf(w1.history) == Next(AlertsOf(w.history), DownAlert(at, EngineDead));
    }
  }

  /** A re-ping that is due is never swallowed by the key de-duplication: its hour is at least four
      above the hour of the previous re-ping. */
  lemma DueRepingIsSent(w: World, at: int)
    requires Inv(w) && RepingDue(w.saved, at)
    ensures MaybeReping(w, at).history == Then(w.history, DownAlert(at, Reping(HoursDown(w.saved, at))))
    ensures w.saved.alertKey.value.Reping? ==> HoursDown(w.saved, at) >= w.saved.alertKey.value.hoursDown + 4
  {
  }

  lemma RepingKeepsAlerts(w: World, at: int)
    requires Inv(w)
    ensures Inv(MaybeReping(w, at))
  {
    if RepingDue(w.saved, at) { DueRepingIsSent(w, at); }
  }

  /** The alert invariant holds in the middle of a poll, where the notify-only step reads the state. */
  lemma NotifyStepIsSafe(w: World, i: Input)
    requires Inv(w) && i.StalePoll?
    ensures Inv(BeforeNotify(w, i))
  {
    var w1 := CountCrash(w, i.at);
    assert SameAlerts(w, w1);
    var checked := w1.Did(GateChecked(i.at.gate, i.maintenance));
    assert SameAlerts(w1, checked);
    var w2 := TryRestart(w1, i);
    assert Inv(w2) by {
      match RestartGate(w1.saved, i.maintenance, i.at.gate)
      case Some(reason) => assert SameAlerts(checked, w2);
      case None => RestartKeepsAlerts(checked, i.exitOk, i.at.restart);
    }
    assert SameAlerts(w2, BeforeNotify(w, i));
  }

  lemma CrashPathKeeps(w: World, i: Input)
    requires Inv(w) && i.StalePoll?
    ensures Inv(CrashPath(w, i).0)
  {
    NotifyStepIsSafe(w, i);
    var w3 := BeforeNotify(w, i);
    NotifyKeepsAlerts(w3, i.age, i.at.notify);
    RepingKeepsAlerts(MaybeNotifyOnly(w3, i.age, i.at.notify), i.at.gate);
    JudgingIsLocal(w, i);
  }

  lemma FreshKeeps(w: World, i: Input)
    requires Inv(w) && i.FreshPoll?
    ensures Inv(OnFresh(w, i))
  {
    var w1 := w.Did(StreakReset(i.recovered));
    assert SameAlerts(w, w1);
    if !w.mem.engineAlive {
      var h3 := if w.saved.notified then Then(w1.history, Resolved(i.resolved)) else w1.history;
      var a3 := AlertsOf(h3);
      assert a3.sound && !a3.noticeOpen && a3.sent == AlertsOf(w.history).sent && a3.owed.None? && !a3.told;
      var h4 := if w.saved.alertKey.Some? then Then(h3, UpAlert(i.told)) else h3;
      assert AlertsOf(h4) == a3.(told := w.saved.alertKey.Some?);
      assert OnFresh(w, i).history == Then(h4, Recovered(i.recovered));
    }
  }

  lemma HoldIsNoAlert(w: World, cycles: nat, at: int)
    requires Inv(w)
    ensures SameAlerts(w, HoldRestart(w, cycles, at))
  {
    var first := if w.mem.holdSince.None? then at else w.mem.holdSince.value;
    assert AlertsOf(Then(w.history, StallSeen(first))) == AlertsOf(w.history);
  }

  lemma StepKeeps(w: World, i: Input)
    requires Inv(w)
    ensures Inv(Step(w, i).0)
  {
    match i
    case ProcessRestart(at) => assert SameAlerts(w, Step(w, i).0);
    case FreshPoll(_, _, _) => FreshKeeps(w, i);
    case StalePoll(_, _, _, _, _, _, at) =>
      match Judge(w, i)
      case Ignored =>
      case NetworkDown => assert SameAlerts(w, NoteOutage(w, at.probe));
      case StillAlive(cycles) => HoldIsNoAlert(w, cycles, at.probe);
      case Crashed => CrashPathKeeps(w, i);
  }

  lemma {:induction false} RunKeeps(start: int, inputs: seq<Input>)
    ensures Inv(Run(Initial(start), inputs))
  {
    if inputs == [] {
      assert AlertsOf(Empty).sound;
    } else {
      var before := inputs[..|inputs| - 1];
      RunKeeps(start, before);
      StepKeeps(Run(Initial(start), before), inputs[|inputs| - 1]);
    }
  }

  /** Every event of every run is allowed by the protocol, and nothing is owed at the end of a poll. */
  lemma ProtocolHolds(start: int, inputs: seq<Input>)
    ensures var a := AlertsOf(Run(Initial(start), inputs).history);
      a.sound && a.owed.None? && a.notices <= 1 && a.trips == a.breakerAlerts <= 1
  {
    RunKeeps(start, inputs);
  }

  /** When no poll is cut short, the branch that adopts an orphaned engine-dead alert is never taken: at the
      notify-only step of every poll after every run that key comes with its active marker. */
  lemma OrphanBranchUnreachable(start: int, inputs: seq<Input>, i: Input)
    requires i.StalePoll?
    ensures var s := BeforeNotify(Run(Initial(start), inputs), i).saved;
      s.alertKey == Some(EngineDead) ==> s.notified
  {
    RunKeeps(start, inputs);
    NotifyStepIsSafe(Run(Initial(start), inputs), i);
  }
}
