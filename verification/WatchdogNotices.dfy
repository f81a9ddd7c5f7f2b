/** Exactly when the notices of a down episode are sent, read off the history. */
module WatchdogNotices {
  import opened Options
  import opened Watchdog
  import Alerts = WatchdogAlerts
  import Breakers = WatchdogBreakers

  /** The last restart command of the episode failed and opened no breaker. */
  predicate LastFailed(h: History) {
    var last := Breakers.EpisodeOf(h).last;
    last.Some? && last.value.outcome.FailuresAfter() > 0 && !last.value.outcome.Trips()
  }

  /** What the two reports of a poll can rely on. */
  ghost predicate Known(w: World, t: int) {
    Alerts.Inv(w) && Breakers.Recorded(w.saved, Breakers.EpisodeOf(w.history).last, t)
  }

  lemma NotifyExactly(w: World, age: int, at: int, t: int)
    requires Known(w, t)
    ensures var w' := MaybeNotifyOnly(w, age, at);
      w'.history ==
        if age >= 30_000 && LastFailed(w.history) && Alerts.AlertsOf(w.history).notices == 0
        then Then(Then(w.history, DownAlert(at, EngineDead)), NotifyOnly(at)) else w.history
  {
  }

  lemma RepingExactly(w: World, at: int)
    requires Alerts.Inv(w)
    ensures var a := Alerts.AlertsOf(w.history);
      MaybeReping(w, at).history ==
        if a.trips > 0 && a.lastAt.Some? && at - a.lastAt.value >= 14_400_000
        then Then(w.history, DownAlert(at, Reping(HoursDown(w.saved, at)))) else w.history
  {
    if RepingDue(w.saved, at) { Alerts.DueRepingIsSent(w, at); }
  }

  lemma KnownBeforeNotify(start: int, inputs: seq<Input>, i: Input)
    requires i.StalePoll? && Clocked(start, inputs) && EndOf(start, inputs) <= i.at.check && i.InOrder()
    ensures Known(BeforeNotify(Run(Initial(start), inputs), i), i.at.restart)
  {
    Alerts.RunKeeps(start, inputs);
    Breakers.RunKeeps(start, inputs);
    Alerts.NotifyStepIsSafe(Run(Initial(start), inputs), i);
    Breakers.GatedKeeps(Run(Initial(start), inputs), i, EndOf(start, inputs));
  }

  /** For every poll after every run, at its notify-only step: the notice is sent, with its alert, if and only if the
      snapshot is at least 30 s old, the last restart command of the episode failed without opening a
      breaker, and the episode has had no notice. */
  lemma NoticeIsSentExactly(start: int, inputs: seq<Input>, i: Input)
    requires i.StalePoll? && Clocked(start, inputs) && EndOf(start, inputs) <= i.at.check && i.InOrder()
    ensures var h := BeforeNotify(Run(Initial(start), inputs), i).history;
      MaybeNotifyOnly(BeforeNotify(Run(Initial(start), inputs), i), i.age, i.at.notify).history ==
        if i.age >= 30_000 && LastFailed(h) && Alerts.AlertsOf(h).notices == 0
        then Then(Then(h, DownAlert(i.at.notify, EngineDead)), NotifyOnly(i.at.notify)) else h
  {
    KnownBeforeNotify(start, inputs, i);
    NotifyExactly(BeforeNotify(Run(Initial(start), inputs), i), i.age, i.at.notify, i.at.restart);
  }

  /** For every poll after every run, at its last report: a re-ping is sent if and only if a breaker opened in this
      episode and the last alert is at least four hours old. */
  lemma RepingIsSentExactly(start: int, inputs: seq<Input>, i: Input)
    requires i.StalePoll? && Clocked(start, inputs) && EndOf(start, inputs) <= i.at.check && i.InOrder()
    ensures var w4 := MaybeNotifyOnly(BeforeNotify(Run(Initial(start), inputs), i), i.age, i.at.notify);
      var a := Alerts.AlertsOf(w4.history);
      MaybeReping(w4, i.at.gate).history ==
        if a.trips > 0 && a.lastAt.Some? && i.at.gate - a.lastAt.value >= 14_400_000
        then Then(w4.history, DownAlert(i.at.gate, Reping(HoursDown(w4.saved, i.at.gate)))) else w4.history
  {
    KnownBeforeNotify(start, inputs, i);
    var w3 := BeforeNotify(Run(Initial(start), inputs), i);
    Alerts.NotifyKeepsAlerts(w3, i.age, i.at.notify);
    RepingExactly(MaybeNotifyOnly(w3, i.age, i.at.notify), i.at.gate);
  }
}
