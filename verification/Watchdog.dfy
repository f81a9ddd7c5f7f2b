/** The engine watchdog: one poll of the snapshot as a step over its memory, its persisted state
    and everything it has done so far. Times are milliseconds. */
module Watchdog {
  import opened Options
  import Log = LogClassifier

  const STRIKE_WINDOW := 3_600_000
  const MAX_STRIKES := 3
  const GRACE_PERIOD := 120_000
  const MAX_CONSECUTIVE_FAILURES := 5
  const POST_RESTART_SETTLE := 90_000
  const INERT_RESTART_LIMIT := 3
  const RE_ALERT_INTERVAL := 14_400_000
  const HOUR := 3_600_000
  const MAX_HOLD_CYCLES := 150
  const MAX_HOLD := 600_000
  const ENGINE_DEAD_MIN_STALE := 30_000

  function Backoff(failures: int): (delay: int)
    ensures delay >= 60_000
  {
    match failures
    case 2 => 120_000
    case 3 => 300_000
    case 4 => 600_000
    case _ => if failures <= 1 then 60_000 else 3_600_000
  }

  // ----- What is remembered -----

  /** Lost when the watchdog process restarts. */
  datatype Memory = Memory(
    startedAt: int, engineAlive: bool, strikes: seq<int>, totalCrashes: nat, totalOutages: nat,
    outageTimes: seq<int>, lastRecovery: int, rollback: bool, holdCycles: nat, holdSince: Option<int>)

  datatype SkipReason = Maintenance | CircuitBroken | Settle | InBackoff
  datatype AlertKey = FailuresBroke | InertBroke | Reping(hoursDown: int) | EngineDead

  /** `watchdog_state.json`. An absent counter reads as 0, an absent marker as None. */
  datatype Saved = Saved(
    failures: nat, restarts: nat, settleUntil: int, nextAllowed: int, broken: bool,
    skipMarker: Option<SkipReason>,
    alertKey: Option<AlertKey>, alertedAt: Option<int>, downSince: Option<int>, notified: bool)

  datatype Outcome = Succeeded | Failed(failures: nat) | BrokeByFailures(failures: nat) | BrokeInert(restarts: nat)
  {
    predicate Trips() { BrokeByFailures? || BrokeInert? }
    function Key(): AlertKey { if BrokeInert? then InertBroke else FailuresBroke }
    /** Consecutive failures once this outcome is recorded. */
    function FailuresAfter(): nat { if Failed? || BrokeByFailures? then failures else 0 }
  }

  /** Everything observable the watchdog does, oldest first. */
  datatype Event =
    | Started(at: int)
    | GateChecked(at: int, maintenance: bool)
    | Restart(at: int, outcome: Outcome)       // the restart command, and how it ended
    | RestartSkipped(at: int, reason: SkipReason)
    | CrashSeen(at: int)
    | OutageSeen(at: int)
    | Recovered(at: int)                       // the restart state is re-armed
    | DownAlert(at: int, key: AlertKey)
    | UpAlert(at: int)
    | NotifyOnly(at: int)
    | Resolved(at: int)
    | StallSeen(at: int)                       // announced at the first suppressed poll of a streak
    | Suppressed(at: int)
    | StreakReset(at: int)

  datatype History = Empty | Then(past: History, last: Event)

  datatype World = World(mem: Memory, saved: Saved, history: History)
  {
    function Did(e: Event): World { this.(history := Then(history, e)) }
  }

  function FreshMemory(at: int): Memory {
    Memory(at, true, [], 0, 0, [], 0, false, 0, None)
  }

  const NO_STATE := Saved(0, 0, 0, 0, false, None, None, None, None, false)

  function Initial(at: int): World {
    World(FreshMemory(at), NO_STATE, Then(Empty, Started(at)))
  }

  // ----- What a poll reads -----

  /** The clock readings of one stale poll, in the order the code takes them. */
  datatype Clock = Clock(check: int, probe: int, crash: int, gate: int, restart: int, notify: int, prune: int)

  datatype Input =
    | FreshPoll(recovered: int, resolved: int, told: int)
    | StalePoll(age: int, tails: seq<Log.Tail>, crosscheck: bool, probeAlive: bool,
                maintenance: bool, exitOk: bool, at: Clock)
    | ProcessRestart(start: int)
  {
    function Begins(): int {
      match this
      case FreshPoll(t, _, _) => t
      case StalePoll(_, _, _, _, _, _, at) => at.check
      case ProcessRestart(t) => t
    }
    function Ends(): int {
      match this
      case FreshPoll(_, _, t) => t
      case StalePoll(_, _, _, _, _, _, at) => at.prune
      case ProcessRestart(t) => t
    }
    predicate InOrder() {
      match this
      case FreshPoll(a, b, c) => a <= b <= c
      case StalePoll(_, _, _, _, _, _, at) =>
        at.check <= at.probe <= at.crash <= at.gate <= at.restart <= at.notify <= at.prune
      case ProcessRestart(_) => true
    }
  }

  // ----- Liveness cross-check -----

  datatype HoldDecision = Hold(cycles: nat) | Release

  function DecideHold(probeAlive: bool, priorCycles: nat, since: Option<int>, now: int): HoldDecision {
    if !probeAlive then Release
    else
      var held := if since.Some? && now - since.value > 0 then now - since.value else 0;
      if priorCycles + 1 > MAX_HOLD_CYCLES then Release
      else if held >= MAX_HOLD then Release
      else Hold(priorCycles + 1)
  }

  // ----- Steps on the world, in the order the code performs them -----

  /** `emit_engine_down_alert_if_new` */
  function SendDownAlert(w: World, key: AlertKey, at: int): World {
    if w.saved.alertKey == Some(key) then w
    else w.(saved := w.saved.(
              alertKey := Some(key), alertedAt := Some(at),
              downSince := if w.saved.downSince.None? then Some(at) else w.saved.downSince))
          .Did(DownAlert(at, key))
  }

  /** `emit_restart_skipped_if_new` */
  function SkipRestart(w: World, reason: SkipReason, at: int): World {
    if w.saved.skipMarker == Some(reason) then w
    else w.(saved := w.saved.(skipMarker := Some(reason))).Did(RestartSkipped(at, reason))
  }

  /** `should_restart`: None allows the restart. */
  function RestartGate(s: Saved, maintenance: bool, at: int): Option<SkipReason> {
    if maintenance then Some(Maintenance)
    else if s.broken then Some(CircuitBroken)
    else if at < s.settleUntil then Some(Settle)
    else if at < s.nextAllowed then Some(InBackoff)
    else None
  }

  function RestartOutcome(s: Saved, exitOk: bool): Outcome {
    if exitOk then
      if s.restarts + 1 >= INERT_RESTART_LIMIT then BrokeInert(s.restarts + 1) else Succeeded
    else if s.failures + 1 >= MAX_CONSECUTIVE_FAILURES then BrokeByFailures(s.failures + 1)
    else Failed(s.failures + 1)
  }

  /** The persisted restart state once a command has been issued and has ended. */
  function AfterRestart(s: Saved, exitOk: bool, at: int): Saved {
    var o := RestartOutcome(s, exitOk);
    var counted := s.(restarts := s.restarts + 1, settleUntil := at + POST_RESTART_SETTLE);
    if exitOk
    then counted.(failures := 0, broken := o.Trips(), nextAllowed := 0, skipMarker := None)
    else counted.(failures := s.failures + 1, broken := s.broken || o.Trips(),
                  nextAllowed := at + Backoff(s.failures + 1))
  }

  /** `trigger_restart` */
  function TriggerRestart(w: World, exitOk: bool, at: int): World {
    var o := RestartOutcome(w.saved, exitOk);
    var w1 := w.(saved := AfterRestart(w.saved, exitOk, at)).Did(Restart(at, o));
    if w1.saved.broken then SendDownAlert(w1, o.Key(), at) else w1
  }

  function TryRestart(w: World, i: Input): World
    requires i.StalePoll?
  {
    var w1 := w.Did(GateChecked(i.at.gate, i.maintenance));
    match RestartGate(w.saved, i.maintenance, i.at.gate)
    case None => TriggerRestart(w1, i.exitOk, i.at.restart)
    case Some(reason) => SkipRestart(w1, reason, i.at.gate)
  }

  /** `maybe_emit_notify_only` */
  function MaybeNotifyOnly(w: World, age: int, at: int): World {
    if age < ENGINE_DEAD_MIN_STALE || w.saved.notified then w
    else if w.saved.alertKey == Some(EngineDead) then w.(saved := w.saved.(notified := true))
    else if w.saved.failures < 1 || w.saved.broken then w
    else
      var w1 := SendDownAlert(w, EngineDead, at);
      w1.(saved := w1.saved.(notified := true)).Did(NotifyOnly(at))
  }

  function HoursDown(s: Saved, at: int): int {
    (at - if s.downSince.Some? then s.downSince.value else at) / HOUR
  }

  predicate RepingDue(s: Saved, at: int) {
    s.broken && at - (if s.alertedAt.Some? then s.alertedAt.value else 0) >= RE_ALERT_INTERVAL
  }

  function MaybeReping(w: World, at: int): World {
    if RepingDue(w.saved, at) then SendDownAlert(w, Reping(HoursDown(w.saved, at)), at) else w
  }

  function After(times: seq<int>, cutoff: int): (kept: seq<int>) {
    if times == [] then []
    else After(times[..|times| - 1], cutoff)
         + if times[|times| - 1] > cutoff then [times[|times| - 1]] else []
  }

  datatype Action = Nothing | Outage | Held | Fallback | Rollback

  /** The network-outage branch of `on_engine_crash`: no restart, a count on the edge only. */
  function NoteOutage(w: World, at: int): World {
    if !w.mem.engineAlive then w
    else w.(mem := w.mem.(engineAlive := false, totalOutages := w.mem.totalOutages + 1,
                          outageTimes := w.mem.outageTimes + [at])).Did(OutageSeen(at))
  }

  /** The suppression branch: the engine still answers, so nothing is counted or restarted. */
  function HoldRestart(w: World, cycles: nat, at: int): World {
    var first := if w.mem.holdSince.None? then at else w.mem.holdSince.value;
    var w1 := w.(mem := w.mem.(holdCycles := cycles, holdSince := Some(first)));
    (if cycles == 1 then w1.Did(StallSeen(first)) else w1).Did(Suppressed(at))
  }

  function CountCrash(w: World, at: Clock): World {
    var m := w.mem.(holdCycles := 0, holdSince := None);
    w.(mem := if w.mem.engineAlive
         then m.(engineAlive := false, totalCrashes := m.totalCrashes + 1, strikes := m.strikes + [at.crash])
         else m)
     .Did(StreakReset(at.crash))
  }

  function JudgeStrikes(w: World, wasAlive: bool, at: int): (World, Action) {
    if !wasAlive then (w, Fallback)
    else
      var kept := After(w.mem.strikes, at - STRIKE_WINDOW);
      var hit := |kept| >= MAX_STRIKES;
      (w.(mem := w.mem.(strikes := kept, rollback := w.mem.rollback || hit)),
       if hit then Rollback else Fallback)
  }

  /** The crash path up to the notify-only step. */
  function BeforeNotify(w: World, i: Input): World
    requires i.StalePoll?
  {
    var w2 := TryRestart(CountCrash(w, i.at), i);
    if w.mem.engineAlive then w2.Did(CrashSeen(i.at.crash)) else w2
  }

  /** The crash path up to the judgement of the strikes. */
  function BeforeJudging(w: World, i: Input): World
    requires i.StalePoll?
  {
    MaybeReping(MaybeNotifyOnly(BeforeNotify(w, i), i.age, i.at.notify), i.at.gate)
  }

  /** The engine-crash branch of `on_engine_crash`, after suppression was refused. */
  function CrashPath(w: World, i: Input): (World, Action)
    requires i.StalePoll?
  {
    JudgeStrikes(BeforeJudging(w, i), w.mem.engineAlive, i.at.prune)
  }

  lemma JudgingIsLocal(w: World, i: Input)
    requires i.StalePoll?
    ensures var w', w5 := CrashPath(w, i).0, BeforeJudging(w, i); w'.saved == w5.saved && w'.history == w5.history
  {
  }

  /** What a stale poll is put down to. */
  datatype Blame = Ignored | NetworkDown | StillAlive(cycles: nat) | Crashed

  ghost function Judge(w: World, i: Input): Blame
    requires i.StalePoll?
  {
    if w.mem.rollback || i.at.check - w.mem.startedAt < GRACE_PERIOD then Ignored
    else if Log.IsOutage(i.tails, Log.DEFAULTS) then NetworkDown
    else if !i.crosscheck then Crashed
    else
      match DecideHold(i.probeAlive, w.mem.holdCycles, w.mem.holdSince, i.at.probe)
      case Hold(cycles) => StillAlive(cycles)
      case Release => Crashed
  }

  /** `on_engine_crash`, behind the grace period of the main loop. */
  ghost function OnStale(w: World, i: Input): (World, Action)
    requires i.StalePoll?
  {
    match Judge(w, i)
    case Ignored => (w, Nothing)
    case NetworkDown => (NoteOutage(w, i.at.probe), Outage)
    case StillAlive(cycles) => (HoldRestart(w, cycles, i.at.probe), Held)
    case Crashed => CrashPath(w, i)
  }

  /** `on_engine_recovery` */
  function OnFresh(w: World, i: Input): World
    requires i.FreshPoll?
  {
    var w1 := w.(mem := w.mem.(holdCycles := 0, holdSince := None)).Did(StreakReset(i.recovered));
    if w.mem.engineAlive then w1
    else
      var w2 := w1.(mem := w1.mem.(engineAlive := true, lastRecovery := i.recovered),
                    saved := w.saved.(restarts := 0, settleUntil := 0, broken := false, failures := 0,
                                      nextAllowed := 0, skipMarker := None));
      var w3 := if w2.saved.notified
        then w2.Did(Resolved(i.resolved)).(saved := w2.saved.(notified := false)) else w2;
      var w4 := if w3.saved.alertKey.Some? then w3.Did(UpAlert(i.told)) else w3;
      w4.(saved := w4.saved.(alertKey := None, alertedAt := None, downSince := None))
        .Did(Recovered(i.recovered))
  }

  /** The watchdog process itself is started again: memory is lost, the persisted state is not. */
  function Restarted(w: World, at: int): World {
    World(FreshMemory(at), w.saved, Then(w.history, Started(at)))
  }

  /** One turn of the main loop. A rolled-back process has left its loop and polls no more. */
  ghost function Step(w: World, i: Input): (World, Action) {
    match i
    case ProcessRestart(at) =>
      (Restarted(w, at), Nothing)
    case FreshPoll(_, _, _) =>
      (if w.mem.rollback then w else OnFresh(w, i), Nothing)
    case StalePoll(_, _, _, _, _, _, _) => OnStale(w, i)
  }

  ghost function Run(w: World, inputs: seq<Input>): World {
    if inputs == [] then w
    else Step(Run(w, inputs[..|inputs| - 1]), inputs[|inputs| - 1]).0
  }

  lemma RunSnoc(w: World, inputs: seq<Input>, i: Input)
    ensures Run(w, inputs + [i]) == Step(Run(w, inputs), i).0
  {
    assert (inputs + [i])[..|inputs + [i]| - 1] == inputs;
  }

  /** The k-th input begins when the one before it has ended, and its own readings are in order. */
  predicate OnTime(start: int, inputs: seq<Input>, k: nat)
    requires k < |inputs|
  {
    inputs[k].InOrder() && (if k == 0 then start else inputs[k - 1].Ends()) <= inputs[k].Begins()
  }

  /** A run is read off a clock that never goes back. */
  predicate Clocked(start: int, inputs: seq<Input>) {
    0 <= start && forall k :: 0 <= k < |inputs| ==> OnTime(start, inputs, k)
  }

  /** A clocked run up to its last input, and the last input. */
  lemma ClockedSplit(start: int, inputs: seq<Input>, n: nat)
    requires Clocked(start, inputs) && n <= |inputs|
    ensures Clocked(start, inputs[..n])
    ensures n < |inputs| ==> EndOf(start, inputs[..n]) <= inputs[n].Begins() && inputs[n].InOrder()
  {
    forall k | 0 <= k < n ensures OnTime(start, inputs[..n], k) { assert OnTime(start, inputs, k); }
    if n < |inputs| { assert OnTime(start, inputs, n); }
  }

  lemma ClockedSnoc(start: int, inputs: seq<Input>, i: Input)
    requires Clocked(start, inputs) && EndOf(start, inputs) <= i.Begins() && i.InOrder()
    ensures Clocked(start, inputs + [i])
  {
    var more := inputs + [i];
    forall k | 0 <= k < |more| ensures OnTime(start, more, k) {
      if k < |inputs| { assert OnTime(start, inputs, k); }
    }
  }

  function EndOf(start: int, inputs: seq<Input>): int {
    if inputs == [] then start else inputs[|inputs| - 1].Ends()
  }
}
