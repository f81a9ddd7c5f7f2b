/** The watchdog process itself: an object updated in place, poll by poll, proved to do what the
    step function of module Watchdog says. */
module EngineWatchdog {
  import opened Options
  import opened Watchdog
  import Log = LogClassifier

  class WatchdogProcess {
    // memory of the running process
    var startTime: int
    var engineAlive: bool
    var crashTimestamps: seq<int>
    var totalCrashes: nat
    var lastRecoveryTs: int
    var rollbackTriggered: bool
    var totalNetworkOutages: nat
    var networkOutageTimestamps: seq<int>
    var livenessSuppressCycles: nat
    var livenessFirstSuppressTs: Option<int>
    // watchdog_state.json
    var saved: Saved
    // canary events, alerts and restart commands so far
    var history: History

    ghost function View(): World
      reads this
    {
      World(Memory(startTime, engineAlive, crashTimestamps, totalCrashes, totalNetworkOutages,
                   networkOutageTimestamps, lastRecoveryTs, rollbackTriggered,
                   livenessSuppressCycles, livenessFirstSuppressTs), saved, history)
    }

    constructor (at: int)
      ensures View() == Initial(at)
    {
      startTime, engineAlive, crashTimestamps, totalCrashes := at, true, [], 0;
      lastRecoveryTs, rollbackTriggered, totalNetworkOutages, networkOutageTimestamps := 0, false, 0, [];
      livenessSuppressCycles, livenessFirstSuppressTs := 0, None;
      saved, history := NO_STATE, Then(Empty, Started(at));
    }

    /** The process dies and is started again: memory is lost, the persisted state is not. */
    method Respawn(at: int)
      modifies this
      ensures View() == Restarted(old(View()), at)
    {
      ForgetAll(at);
      Append(Started(at));
    }

    method ForgetAll(at: int)
      modifies this
      ensures View() == World(FreshMemory(at), old(saved), old(history))
    {
      startTime, engineAlive, crashTimestamps, totalCrashes := at, true, [], 0;
      lastRecoveryTs, rollbackTriggered, totalNetworkOutages, networkOutageTimestamps := 0, false, 0, [];
      livenessSuppressCycles, livenessFirstSuppressTs := 0, None;
    }

    method Append(e: Event)
      modifies this`history
      ensures history == Then(old(history), e)
    {
      history := Then(history, e);
    }

    method EmitRestartSkippedIfNew(reason: SkipReason, at: int) returns (written: bool)
      modifies this`saved, this`history
      ensures View() == SkipRestart(old(View()), reason, at)
      ensures written <==> old(saved).skipMarker != Some(reason)
    {
      if saved.skipMarker == Some(reason) { return false; }
      saved := saved.(skipMarker := Some(reason));
      Append(RestartSkipped(at, reason));
      return true;
    }

    method EmitEngineDownAlertIfNew(key: AlertKey, at: int) returns (sent: bool)
      modifies this`saved, this`history
      ensures View() == SendDownAlert(old(View()), key, at)
      ensures sent <==> old(saved).alertKey != Some(key)
    {
      if saved.alertKey == Some(key) { return false; }
      var state := saved.(alertKey := Some(key), alertedAt := Some(at));
      if state.downSince.None? { state := state.(downSince := Some(at)); }
      saved := state;
      Append(DownAlert(at, key));
      return true;
    }

    method TriggerRestartCommand(exitOk: bool, at: int) returns (ok: bool)
      modifies this`saved, this`history
      ensures View() == TriggerRestart(old(View()), exitOk, at)
      ensures ok <==> exitOk && !saved.broken
    {
      var state := saved;
      var consecutive := state.failures;
      var restarts := state.restarts + 1;
      state := state.(restarts := restarts, settleUntil := at + POST_RESTART_SETTLE);
      if exitOk {
        state := state.(failures := 0, broken := false, nextAllowed := 0, skipMarker := None);
        var inertBreak := restarts >= INERT_RESTART_LIMIT;
        if inertBreak { state := state.(broken := true); }
        saved := state;
        Append(Restart(at, if inertBreak then BrokeInert(restarts) else Succeeded));
        if inertBreak {
          var _ := EmitEngineDownAlertIfNew(InertBroke, at);
          return false;
        }
        return true;
      }
      consecutive := consecutive + 1;
      state := state.(failures := consecutive, nextAllowed := at + Backoff(consecutive));
      var tripped := consecutive >= MAX_CONSECUTIVE_FAILURES;
      if tripped { state := state.(broken := true); }
      Append(Restart(at, if tripped then BrokeByFailures(consecutive) else Failed(consecutive)));
      saved := state;
      if state.broken {
        var _ := EmitEngineDownAlertIfNew(FailuresBroke, at);
      }
      return false;
    }

    method MaybeEmitNotifyOnly(age: int, at: int)
      modifies this`saved, this`history
      ensures View() == MaybeNotifyOnly(old(View()), age, at)
    {
      if age < ENGINE_DEAD_MIN_STALE || saved.notified { return; }
      if saved.alertKey == Some(EngineDead) {
        saved := saved.(notified := true);
        return;
      }
      if saved.failures < 1 || saved.broken { return; }
      var emitted := EmitEngineDownAlertIfNew(EngineDead, at);
      if !emitted { return; }
      saved := saved.(notified := true);
      Append(NotifyOnly(at));
    }

    method RePingIfDue(at: int)
      modifies this`saved, this`history
      ensures View() == MaybeReping(old(View()), at)
    {
      if saved.broken {
        var lastAlert := if saved.alertedAt.Some? then saved.alertedAt.value else 0;
        if at - lastAlert >= RE_ALERT_INTERVAL {
          var downSince := if saved.downSince.Some? then saved.downSince.value else at;
          var _ := EmitEngineDownAlertIfNew(Reping((at - downSince) / HOUR), at);
        }
      }
    }

    method PruneOldStrikes(cutoff: int)
      modifies this`crashTimestamps
      ensures crashTimestamps == After(old(crashTimestamps), cutoff)
    {
      var kept: seq<int> := [];
      for k := 0 to |crashTimestamps|
        invariant kept == After(crashTimestamps[..k], cutoff)
      {
        assert crashTimestamps[..k + 1][..k] == crashTimestamps[..k];
        if crashTimestamps[k] > cutoff { kept := kept + [crashTimestamps[k]]; }
      }
      assert crashTimestamps[..|crashTimestamps|] == crashTimestamps;
      crashTimestamps := kept;
    }

    /** True: the destructive restart is suppressed for this poll. */
    method MaybeSuppressRestart(probeAlive: bool, at: int) returns (suppressed: bool)
      modifies this`livenessSuppressCycles, this`livenessFirstSuppressTs, this`history
      ensures var d := DecideHold(probeAlive, old(livenessSuppressCycles), old(livenessFirstSuppressTs), at);
        suppressed == d.Hold? && View() == (if d.Hold? then HoldRestart(old(View()), d.cycles, at) else old(View()))
    {
      match DecideHold(probeAlive, livenessSuppressCycles, livenessFirstSuppressTs, at)
      case Release => return false;
      case Hold(cycles) =>
        var first := at;
        if livenessFirstSuppressTs.Some? { first := livenessFirstSuppressTs.value; }
        livenessFirstSuppressTs := Some(first);
        livenessSuppressCycles := cycles;
        if cycles == 1 { Append(StallSeen(first)); }
        Append(Suppressed(at));
        return true;
    }

    method OnEngineCrash(i: Input) returns (action: Action)
      requires i.StalePoll? && !rollbackTriggered && i.at.check - startTime >= GRACE_PERIOD
      modifies this
      ensures (View(), action) == OnStale(old(View()), i)
    {
      var wasAlive := engineAlive;
      var verdict := Log.Classify(i.tails, Log.DEFAULTS);
      if verdict == Log.NetworkOutage {
        if wasAlive {
          engineAlive := false;
          totalNetworkOutages := totalNetworkOutages + 1;
          networkOutageTimestamps := networkOutageTimestamps + [i.at.probe];
          Append(OutageSeen(i.at.probe));
        }
        return Outage;
      }
      if i.crosscheck {
        var suppressed := MaybeSuppressRestart(i.probeAlive, i.at.probe);
        if suppressed { return Held; }
      }
      action := RestartAndReport(i);
    }

    method NoteCrash(at: Clock)
      modifies this
      ensures View() == CountCrash(old(View()), at)
    {
      if engineAlive {
        engineAlive := false;
        totalCrashes := totalCrashes + 1;
        crashTimestamps := crashTimestamps + [at.crash];
      }
      livenessSuppressCycles, livenessFirstSuppressTs := 0, None;
      Append(StreakReset(at.crash));
    }

    method RestartOrSkip(i: Input)
      requires i.StalePoll?
      modifies this`saved, this`history
      ensures View() == TryRestart(old(View()), i)
    {
      Append(GateChecked(i.at.gate, i.maintenance));
      match RestartGate(saved, i.maintenance, i.at.gate) {
        case None => var _ := TriggerRestartCommand(i.exitOk, i.at.restart);
        case Some(reason) => var _ := EmitRestartSkippedIfNew(reason, i.at.gate);
      }
    }

    method CheckStrikes(wasAlive: bool, at: int) returns (action: Action)
      modifies this`crashTimestamps, this`rollbackTriggered
      ensures (View(), action) == JudgeStrikes(old(View()), wasAlive, at)
    {
      if wasAlive {
        PruneOldStrikes(at - STRIKE_WINDOW);
        if |crashTimestamps| >= MAX_STRIKES {
          rollbackTriggered := true;
          return Rollback;
        }
      }
      return Fallback;
    }

    /** Recovery first: the restart comes before every report about it. */
    method RestartAndReport(i: Input) returns (action: Action)
      requires i.StalePoll?
      modifies this
      ensures (View(), action) == CrashPath(old(View()), i)
    {
      var wasAlive := engineAlive;
      NoteCrash(i.at);
      RestartOrSkip(i);
      if wasAlive { Append(CrashSeen(i.at.crash)); }
      MaybeEmitNotifyOnly(i.age, i.at.notify);
      RePingIfDue(i.at.gate);
      action := CheckStrikes(wasAlive, i.at.prune);
    }

    method OnEngineRecovery(i: Input)
      requires i.FreshPoll?
      modifies this
      ensures View() == OnFresh(old(View()), i)
    {
      livenessSuppressCycles, livenessFirstSuppressTs := 0, None;
      Append(StreakReset(i.recovered));
      if engineAlive { return; }
      engineAlive := true;
      lastRecoveryTs := i.recovered;
      Rearm();
      ReportRecovery(i);
      Append(Recovered(i.recovered));
    }

    method Rearm()
      modifies this`saved
      ensures saved == old(saved).(restarts := 0, settleUntil := 0, broken := false, failures := 0, nextAllowed := 0,
                                   skipMarker := None)
    {
      if saved.skipMarker.Some? { saved := saved.(skipMarker := None); }
      saved := saved.(restarts := 0, settleUntil := 0, broken := false, failures := 0, nextAllowed := 0);
    }

    /** Resolution and all-clear, each only if there is something to resolve or to clear. */
    method ReportRecovery(i: Input)
      requires i.FreshPoll?
      modifies this`saved, this`history
      ensures saved == old(saved).(notified := false, alertKey := None, alertedAt := None, downSince := None)
      ensures var h3 := if old(saved).notified then Then(old(history), Resolved(i.resolved)) else old(history);
        history == if old(saved).alertKey.Some? then Then(h3, UpAlert(i.told)) else h3
    {
      if saved.notified {
        Append(Resolved(i.resolved));
        saved := saved.(notified := false);
      }
      if saved.alertKey.Some? { Append(UpAlert(i.told)); }
      saved := saved.(alertKey := None, alertedAt := None, downSince := None);
    }

    method Poll(i: Input)
      requires !rollbackTriggered && !i.ProcessRestart?
      modifies this
      ensures View() == Step(old(View()), i).0
    {
      if i.FreshPoll? {
        OnEngineRecovery(i);
      } else if i.at.check - startTime >= GRACE_PERIOD {
        var _ := OnEngineCrash(i);
      }
    }

    /** The main loop over the polls of one process; it leaves the loop on a rollback. */
    method RunPolls(polls: seq<Input>)
      requires forall i <- polls :: !i.ProcessRestart?
      modifies this
      ensures View() == Run(old(View()), polls)
    {
      ghost var begun := View();
      var k := 0;
      while k < |polls| && !rollbackTriggered
        invariant k <= |polls|
        invariant View() == Run(begun, polls[..k])
      {
        var i := polls[k];
        assert polls[..k + 1][..k] == polls[..k];
        Poll(i);
        k := k + 1;
      }
      RolledBackIsOver(begun, polls, k);
    }
  }

  lemma RolledBackStays(w: World, i: Input)
    requires w.mem.rollback && !i.ProcessRestart?
    ensures Step(w, i).0 == w
  {
  }

  lemma {:induction false} RolledBackIsOver(w: World, polls: seq<Input>, k: nat)
    requires k <= |polls| && (k < |polls| ==> Run(w, polls[..k]).mem.rollback)
    requires forall i <- polls :: !i.ProcessRestart?
    ensures Run(w, polls) == Run(w, polls[..k])
  {
    if k == |polls| {
      assert polls[..k] == polls;
    } else {
      var n := |polls| - 1;
      var init := polls[..n];
      assert init[..k] == polls[..k] && polls[n] in polls;
      RolledBackIsOver(w, init, k);
      RolledBackStays(Run(w, init), polls[n]);
    }
  }
}
