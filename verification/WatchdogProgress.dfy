/** Progress: if the engine stays down and polls keep coming, a breaker opens in bounded time. */
module WatchdogProgress {
  import opened Options
  import opened Watchdog
  import opened WatchdogBreakers

  function Max(a: int, b: int): int { if a < b then b else a }

  /** The longest wait that can still lie between the commands to come, from `restarts` commands and `failures`
      failures in a row on; every wait can be exceeded by two poll distances `d`. With `failing` every
      command fails. */
  function Ahead(restarts: nat, failures: nat, d: int, failing: bool): int
    decreases 8 - restarts
  {
    if restarts > 7 then 0
    else
      var afterFailure :=
        if failures + 1 >= MAX_CONSECUTIVE_FAILURES then 0
        else MinGap(Failed(failures + 1)) + 2 * d + Ahead(restarts + 1, failures + 1, d, failing);
      var afterSuccess :=
        if failing || restarts + 1 >= INERT_RESTART_LIMIT then 0
        else POST_RESTART_SETTLE + 2 * d + Ahead(restarts + 1, 0, d, failing);
      Max(afterFailure, afterSuccess)
  }

  /** The next command is due. */
  function Due(s: Saved): int { Max(s.settleUntil, s.nextAllowed) }

  /** The breaker opens at a poll no later than this, after a poll at `gate`. */
  function Horizon(s: Saved, gate: int, d: int, failing: bool): int {
    Max(gate, Due(s)) + d + Ahead(s.restarts, s.failures, d, failing)
  }

  lemma AheadIsNotNegative(restarts: nat, failures: nat, d: int, failing: bool)
    requires d >= 0
    ensures Ahead(restarts, failures, d, failing) >= 0
    decreases 8 - restarts
  {
  }

  lemma FailureUsesUp(s: Saved, gate: int, at: int, d: int, failing: bool)
    requires s.restarts <= 7 && gate <= at <= gate + d && d >= 0
    ensures var s' := AfterRestart(s, false, at);
      s'.broken || Horizon(s', gate, d, failing) <= gate + Ahead(s.restarts, s.failures, d, failing)
  {
    var n := s.failures + 1;
    assert MinGap(Failed(n)) == Max(POST_RESTART_SETTLE, Backoff(n));
  }

  lemma SuccessUsesUp(s: Saved, gate: int, at: int, d: int)
    requires s.restarts <= 7 && 0 <= gate <= at <= gate + d && d >= 0
    ensures var s' := AfterRestart(s, true, at);
      s'.broken || Horizon(s', gate, d, false) <= gate + Ahead(s.restarts, s.failures, d, false)
  {
  }

  /** One crash poll: the breaker opens, or the horizon does not move. */
  lemma PollKeepsHorizon(s: Saved, s': Saved, ep: Episode, t: int, i: Input, before: int, d: int, failing: bool)
    requires i.StalePoll? && BreakerInv(s, ep, t) && t <= i.at.gate && i.InOrder() && !i.maintenance
    requires before <= i.at.gate <= before + d && i.at.restart <= i.at.gate + d && (failing ==> !i.exitOk)
    requires SameGate(s', if RestartGate(s, false, i.at.gate).None? then AfterRestart(s, i.exitOk, i.at.restart) else s)
    requires !s.broken
    ensures s'.broken || Horizon(s', i.at.gate, d, failing) <= Horizon(s, before, d, failing)
  {
    if RestartGate(s, false, i.at.gate).None? {
      if i.exitOk { SuccessUsesUp(s, i.at.gate, i.at.restart, d); }
      else { FailureUsesUp(s, i.at.gate, i.at.restart, d, failing); }
    }
  }

  /** The same restart state, whatever was reported about it. */
  predicate SameGate(a: Saved, b: Saved) {
    && a.restarts == b.restarts && a.failures == b.failures && a.broken == b.broken
    && a.settleUntil == b.settleUntil && a.nextAllowed == b.nextAllowed
  }

  lemma TryGate(w: World, i: Input)
    requires i.StalePoll?
    ensures SameGate(TryRestart(w, i).saved,
                     if RestartGate(w.saved, i.maintenance, i.at.gate).None?
                     then AfterRestart(w.saved, i.exitOk, i.at.restart) else w.saved)
  {
  }

  lemma ReportsKeepGate(w: World, age: int, at: Clock)
    ensures SameGate(MaybeReping(MaybeNotifyOnly(w, age, at.notify), at.gate).saved, w.saved)
  {
  }

  lemma CrashGate(w: World, i: Input)
    requires i.StalePoll?
    ensures SameGate(CrashPath(w, i).0.saved,
                     if RestartGate(w.saved, i.maintenance, i.at.gate).None?
                     then AfterRestart(w.saved, i.exitOk, i.at.restart) else w.saved)
  {
    TryGate(CountCrash(w, i.at), i);
    ReportsKeepGate(BeforeNotify(w, i), i.age, i.at);
    JudgingIsLocal(w, i);
  }

  // ----- Crash polls in a row -----

  ghost predicate DownAt(start: int, inputs: seq<Input>, k: nat, failing: bool)
    requires k < |inputs|
  {
    && inputs[k].StalePoll? && !inputs[k].maintenance && (failing ==> !inputs[k].exitOk)
    && Judge(Run(Initial(start), inputs[..k]), inputs[k]).Crashed?
  }

  /** From the input at `from` on, every poll is put down to a crash and finds no maintenance flag; with
      `failing` every command fails. */
  ghost predicate StaysDown(start: int, inputs: seq<Input>, from: nat, failing: bool) {
    forall k :: from <= k < |inputs| ==> DownAt(start, inputs, k, failing)
  }

  function GateOf(i: Input): int { if i.StalePoll? then i.at.gate else i.Begins() }

  predicate SoonAfter(inputs: seq<Input>, from: nat, k: nat, d: int)
    requires k < |inputs|
  {
    && (inputs[k].StalePoll? ==> inputs[k].at.restart <= inputs[k].at.gate + d)
    && (k > from ==> GateOf(inputs[k]) <= GateOf(inputs[k - 1]) + d)
  }

  /** From there on polls come at most `d` apart, and a command starts within `d` of its gate. */
  predicate Frequent(inputs: seq<Input>, from: nat, d: int) {
    forall k :: from <= k < |inputs| ==> SoonAfter(inputs, from, k, d)
  }

  /** After a poll at `last` the breaker is open, or will be by `bound`. */
  ghost predicate Bounded(w: World, last: int, d: int, failing: bool, bound: int) {
    w.saved.broken || Horizon(w.saved, last, d, failing) <= bound
  }

  lemma PollProgresses(w: World, i: Input, t: int, last: int, d: int, failing: bool, bound: int)
    requires Inv(w, t) && i.StalePoll? && i.InOrder() && t <= i.at.check && !i.maintenance && (failing ==> !i.exitOk)
    requires last <= i.at.gate <= last + d && i.at.restart <= i.at.gate + d && Judge(w, i).Crashed?
    requires Bounded(w, last, d, failing, bound)
    ensures Bounded(Step(w, i).0, i.at.gate, d, failing, bound)
  {
    CrashGate(w, i);
    assert Step(w, i).0 == CrashPath(w, i).0;
    if !w.saved.broken {
      PollKeepsHorizon(w.saved, CrashPath(w, i).0.saved, EpisodeOf(w.history), t, i, last, d, failing);
    }
  }

  /** Where a run stands before its k-th input. */
  lemma Reached(start: int, inputs: seq<Input>, k: nat)
    requires Clocked(start, inputs) && k < |inputs|
    ensures Inv(Run(Initial(start), inputs[..k]), EndOf(start, inputs[..k]))
    ensures EndOf(start, inputs[..k]) <= inputs[k].Begins() && inputs[k].InOrder()
    ensures Run(Initial(start), inputs[..k + 1]) == Step(Run(Initial(start), inputs[..k]), inputs[k]).0
  {
    ClockedSplit(start, inputs, k);
    RunKeeps(start, inputs[..k]);
    assert inputs[..k + 1] == inputs[..k] + [inputs[k]];
    RunSnoc(Initial(start), inputs[..k], inputs[k]);
  }

  lemma LaterGate(start: int, inputs: seq<Input>, k: nat)
    requires Clocked(start, inputs) && 0 < k < |inputs| && inputs[k].StalePoll?
    ensures GateOf(inputs[k - 1]) <= inputs[k].at.gate
  {
    assert OnTime(start, inputs, k - 1) && OnTime(start, inputs, k);
  }

  /** The gate of the last poll before the j-th input, counted from the one at `from`. */
  function GateReached(inputs: seq<Input>, from: nat, j: nat): int
    requires from <= j <= |inputs| && from < |inputs|
  {
    if j == from then GateOf(inputs[from]) else GateOf(inputs[j - 1])
  }

  ghost predicate BoundedAt(start: int, inputs: seq<Input>, from: nat, j: nat, d: int, failing: bool, bound: int) {
    && from <= j <= |inputs| && from < |inputs|
    && Bounded(Run(Initial(start), inputs[..j]), GateReached(inputs, from, j), d, failing, bound)
  }

  lemma OnePoll(start: int, inputs: seq<Input>, from: nat, k: nat, d: int, failing: bool, bound: int)
    requires from <= k < |inputs| && d >= 0 && Clocked(start, inputs)
    requires DownAt(start, inputs, k, failing) && SoonAfter(inputs, from, k, d)
    requires BoundedAt(start, inputs, from, k, d, failing, bound)
    ensures BoundedAt(start, inputs, from, k + 1, d, failing, bound)
  {
    Reached(start, inputs, k);
    if k > from { LaterGate(start, inputs, k); }
    PollProgresses(Run(Initial(start), inputs[..k]), inputs[k], EndOf(start, inputs[..k]),
                   GateReached(inputs, from, k), d, failing, bound);
  }

  /** Induction from a first index on. */
  lemma {:induction false} Climb(p: nat -> bool, from: nat, k: nat)
    requires from <= k && p(from) && forall j: nat :: from <= j < k && p(j) ==> p(j + 1)
    ensures p(k)
  {
    if k > from { Climb(p, from, k - 1); }
  }

  lemma PollsProgress(start: int, inputs: seq<Input>, from: nat, k: nat, d: int, failing: bool, bound: int)
    requires from <= k < |inputs| && d >= 0 && Clocked(start, inputs)
    requires StaysDown(start, inputs, from, failing) && Frequent(inputs, from, d)
    requires BoundedAt(start, inputs, from, from, d, failing, bound)
    ensures BoundedAt(start, inputs, from, k + 1, d, failing, bound)
  {
    var p := (j: nat) => BoundedAt(start, inputs, from, j, d, failing, bound);
    forall j: nat | from <= j < k + 1 && p(j) ensures p(j + 1) {
      assert DownAt(start, inputs, j, failing) && SoonAfter(inputs, from, j, d);
      OnePoll(start, inputs, from, j, d, failing, bound);
    }
    Climb(p, from, k + 1);
  }

  lemma PastTheBound(w: World, last: int, d: int, failing: bool, bound: int)
    requires Bounded(w, last, d, failing, bound) && d >= 0 && last + d > bound
    ensures w.saved.broken
  {
    AheadIsNotNegative(w.saved.restarts, w.saved.failures, d, failing);
  }

  /** From any reachable state: at a poll beyond the bound a breaker is open, whatever the commands return. */
  lemma BreakerOpensInTime(start: int, inputs: seq<Input>, from: nat, k: nat, d: int, failing: bool, bound: int)
    requires from <= k < |inputs| && d >= 0 && Clocked(start, inputs)
    requires StaysDown(start, inputs, from, failing) && Frequent(inputs, from, d)
    requires Bounded(Run(Initial(start), inputs[..from]), GateOf(inputs[from]), d, failing, bound)
    requires GateOf(inputs[k]) + d > bound
    ensures Run(Initial(start), inputs[..k + 1]).saved.broken
  {
    PollsProgress(start, inputs, from, k, d, failing, bound);
    PastTheBound(Run(Initial(start), inputs[..k + 1]), GateOf(inputs[k]), d, failing, bound);
  }

  /** What lies ahead of a first command: 1110 s when every command fails, 1290 s at worst. */
  lemma AheadOfTheFirst(d: int)
    requires d >= 0
    ensures Ahead(0, 0, d, true) == 1_110_000 + 8 * d
    ensures Ahead(0, 0, d, false) == 1_290_000 + 12 * d
  {
    assert Ahead(2, 0, d, false) == 1_110_000 + 8 * d;
  }

  /** The bound for an episode in which no command was issued yet. */
  function FirstBound(gate: int, d: int, failing: bool): int {
    gate + d + if failing then 1_110_000 + 8 * d else 1_290_000 + 12 * d
  }

  lemma DueAfterRearm(w: World, t: int, gate: int, d: int, failing: bool)
    requires Recorded(w.saved, None, t) && 0 <= t <= gate && d >= 0
    ensures Bounded(w, gate, d, failing, FirstBound(gate, d, failing))
  {
    AheadOfTheFirst(d);
  }

  /** Once the engine stays down after a recovery: if polls come at most `d` apart and no maintenance is on, a
      breaker is open after any poll more than 1290 s and 12 `d` after the first one; if every command fails,
      more than 1110 s and 8 `d`. */
  lemma OpensWithin(start: int, inputs: seq<Input>, from: nat, k: nat, d: int, failing: bool)
    requires from <= k < |inputs| && d >= 0 && Clocked(start, inputs)
    requires StaysDown(start, inputs, from, failing) && Frequent(inputs, from, d)
    requires EpisodeOf(Run(Initial(start), inputs[..from]).history).last.None?
    requires GateOf(inputs[k]) - GateOf(inputs[from]) > if failing then 1_110_000 + 8 * d else 1_290_000 + 12 * d
    ensures Run(Initial(start), inputs[..k + 1]).saved.broken
  {
    BoundedAfterRearm(start, inputs, from, d, failing);
    BreakerOpensInTime(start, inputs, from, k, d, failing, FirstBound(GateOf(inputs[from]), d, failing));
  }

  lemma BoundedAfterRearm(start: int, inputs: seq<Input>, from: nat, d: int, failing: bool)
    requires from < |inputs| && d >= 0 && Clocked(start, inputs) && DownAt(start, inputs, from, failing)
    requires EpisodeOf(Run(Initial(start), inputs[..from]).history).last.None?
    ensures Bounded(Run(Initial(start), inputs[..from]), GateOf(inputs[from]), d, failing,
                    FirstBound(GateOf(inputs[from]), d, failing))
  {
    Reached(start, inputs, from);
    var w := Run(Initial(start), inputs[..from]);
    DueAfterRearm(w, EndOf(start, inputs[..from]), GateOf(inputs[from]), d, failing);
  }
}
