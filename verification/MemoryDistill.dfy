/** The daily memory distillation: a window of pending days and a cursor that moves only on success. Days are
    day numbers; what each call of the pipeline does is an input. */
module MemoryDistill {
  import opened Options

  const LOOKBACK := 7

  function Max(a: int, b: int): int { if a < b then b else a }

  function DaysUpTo(start: int, last: int): seq<int>
    decreases last - start
  {
    if start > last then [] else [start] + DaysUpTo(start + 1, last)
  }

  function PendingDays(cursor: Option<int>, today: int): seq<int> {
    var yesterday := today - 1;
    var start := if cursor.None? then yesterday else cursor.value + 1;
    DaysUpTo(Max(start, yesterday - (LOOKBACK - 1)), yesterday)
  }

  // ----- State and runs -----

  /** One day: distilled and stored, distilled but the cursor write raised, or failed. */
  datatype Fate = Succeeds | StoreFails | Fails

  /** A run of the cron job; `setUp` is false when a precondition of the day loop is missing. */
  datatype Cron = Cron(today: int, setUp: bool, fates: seq<Fate>)

  /** A successful distillation: the day, the date of the run, whether the cursor followed, and whether there
      was a cursor at all before it. */
  datatype Done = Done(day: int, today: int, stored: bool, hadCursor: bool)

  datatype State = State(cursor: Option<int>, done: seq<Done>)

  const EMPTY := State(None, [])

  function FateAt(fates: seq<Fate>, k: nat): Fate { if k < |fates| then fates[k] else Succeeds }

  function Distilled(s: State, day: int, today: int, stored: bool): State {
    State(if stored then Some(day) else s.cursor, s.done + [Done(day, today, stored, s.cursor.Some?)])
  }

  /** The day loop from its k-th day on. */
  function TakeDays(s: State, days: seq<int>, today: int, fates: seq<Fate>, k: nat): State
    requires k <= |days|
    decreases |days| - k
  {
    if k == |days| then s
    else
      match FateAt(fates, k)
      case Fails => s
      case StoreFails => Distilled(s, days[k], today, false)
      case Succeeds => TakeDays(Distilled(s, days[k], today, true), days, today, fates, k + 1)
  }

  function RunOnce(s: State, c: Cron): State {
    if !c.setUp then s else TakeDays(s, PendingDays(s.cursor, c.today), c.today, c.fates, 0)
  }

  function Run(runs: seq<Cron>): State {
    if runs == [] then EMPTY else RunOnce(Run(runs[..|runs| - 1]), runs[|runs| - 1])
  }

  predicate DatesAscend(runs: seq<Cron>) {
    forall i, j :: 0 <= i <= j < |runs| ==> runs[i].today <= runs[j].today
  }

  // ----- The window -----

  lemma {:induction false} DaysUpToAt(start: int, last: int)
    ensures var r := DaysUpTo(start, last);
      |r| == Max(0, last - start + 1) && forall i :: 0 <= i < |r| ==> r[i] == start + i
    decreases last - start
  {
    if start <= last { DaysUpToAt(start + 1, last); }
  }

  /** The pending days are exactly the days after the cursor (on a first run, yesterday alone) among the
      last seven full days, oldest first and without a gap. */
  lemma WindowIsExact(cursor: Option<int>, today: int)
    ensures var r := PendingDays(cursor, today);
      && (forall d :: d in r <==> today - 7 <= d < today && (if cursor.Some? then d > cursor.value else d == today - 1))
      && (forall i :: 0 <= i < |r| - 1 ==> r[i + 1] == r[i] + 1)
      && |r| <= 7
  {
    var yesterday := today - 1;
    var start := Max(if cursor.None? then yesterday else cursor.value + 1, yesterday - 6);
    DaysUpToAt(start, yesterday);
    var r := PendingDays(cursor, today);
    forall d | start <= d <= yesterday ensures d in r {
      assert r[d - start] == d;
    }
  }

  // ----- Every run -----

  /** The day distilled next after `a`, exactly: the following day, or the same one again if the cursor was
      not written, but never older than the window; without any cursor only yesterday is tried. */
  predicate Follows(a: Done, b: Done) {
    && a.today <= b.today
    && b.day == if a.stored then Max(a.day + 1, b.today - 7)
                else if a.hadCursor then Max(a.day, b.today - 7)
                else b.today - 1
  }

  predicate Chain(done: seq<Done>) {
    forall i :: 0 <= i < |done| - 1 ==> Follows(done[i], done[i + 1])
  }

  predicate Stored(done: seq<Done>) {
    forall i :: 0 <= i < |done| ==> done[i].stored
  }

  /** Where the next run would start, given the last day distilled. */
  predicate CursorTells(s: State, last: Done) {
    && (last.stored ==> s.cursor == Some(last.day))
    && (!last.stored ==> (s.cursor.Some? <==> last.hadCursor))
    && (!last.stored && last.hadCursor ==> last.day == Max(s.cursor.value + 1, last.today - 7))
    && (!last.stored && !last.hadCursor ==> last.day == last.today - 1)
  }

  predicate Inv(s: State, today: int) {
    && Chain(s.done)
    && (s.done == [] ==> s.cursor.None?)
    && (s.done != [] ==>
          var last := s.done[|s.done| - 1];
          last.today <= today && last.day < last.today && CursorTells(s, last))
  }

  /** Distilling the day that the cursor asks for keeps the invariant. */
  lemma DistilledKeeps(s: State, day: int, today: int, stored: bool)
    requires Inv(s, today) && day < today
    requires day == if s.cursor.Some? then Max(s.cursor.value + 1, today - 7) else today - 1
    ensures Inv(Distilled(s, day, today, stored), today)
  {
    var s' := Distilled(s, day, today, stored);
    if s.done != [] {
      var last := s.done[|s.done| - 1];
      assert Follows(last, s'.done[|s.done|]);
    }
    forall i | 0 <= i < |s'.done| - 1 ensures Follows(s'.done[i], s'.done[i + 1]) {
      if i < |s.done| - 1 { assert Follows(s.done[i], s.done[i + 1]); }
    }
  }

  lemma {:induction false} TakeDaysKeeps(s: State, days: seq<int>, today: int, fates: seq<Fate>, k: nat)
    requires k <= |days| && Inv(s, today)
    requires forall i :: 0 <= i < |days| ==> days[i] < today && (i > 0 ==> days[i] == days[i - 1] + 1)
    requires k < |days| ==> days[k] == if s.cursor.Some? then Max(s.cursor.value + 1, today - 7) else today - 1
    requires |days| > 0 ==> days[0] >= today - 7
    ensures Inv(TakeDays(s, days, today, fates, k), today)
    decreases |days| - k
  {
    if k < |days| && !FateAt(fates, k).Fails? {
      DistilledKeeps(s, days[k], today, FateAt(fates, k).Succeeds?);
      if FateAt(fates, k).Succeeds? {
        if k + 1 < |days| { Spaced(days, k); }
        TakeDaysKeeps(Distilled(s, days[k], today, true), days, today, fates, k + 1);
      }
    }
  }

  lemma {:induction false} Spaced(days: seq<int>, k: nat)
    requires k < |days| && forall i :: 0 < i < |days| ==> days[i] == days[i - 1] + 1
    ensures days[k] == days[0] + k
  {
    if k > 0 { Spaced(days, k - 1); }
  }

  lemma RunOnceKeeps(s: State, c: Cron)
    requires Inv(s, c.today)
    ensures Inv(RunOnce(s, c), c.today)
  {
    if c.setUp {
      var yesterday := c.today - 1;
      DaysUpToAt(Max(if s.cursor.None? then yesterday else s.cursor.value + 1, yesterday - 6), yesterday);
      TakeDaysKeeps(s, PendingDays(s.cursor, c.today), c.today, c.fates, 0);
    }
  }

  lemma {:induction false} RunKeeps(runs: seq<Cron>, today: int)
    requires DatesAscend(runs) && (runs != [] ==> runs[|runs| - 1].today <= today)
    ensures Inv(Run(runs), today)
  {
    if runs != [] {
      var n := |runs| - 1;
      assert DatesAscend(runs[..n]) by {
        assert forall i :: 0 <= i < n ==> runs[..n][i] == runs[i];
      }
      if n > 0 { assert runs[..n][n - 1] == runs[n - 1]; }
      RunKeeps(runs[..n], runs[n].today);
      RunOnceKeeps(Run(runs[..n]), runs[n]);
    }
  }

  /** Over all runs with ascending dates and an intact cursor, each distilled day determines the next
      exactly. */
  lemma DaysFollow(runs: seq<Cron>)
    requires DatesAscend(runs)
    ensures Chain(Run(runs).done)
  {
    RunKeeps(runs, if runs == [] then 0 else runs[|runs| - 1].today);
  }

  /** Days never go back, and a day is distilled twice in a row exactly when its cursor write had failed and
      the second run still looks at it. */
  lemma RepeatsExactly(runs: seq<Cron>, i: nat)
    requires DatesAscend(runs) && i + 1 < |Run(runs).done|
    ensures var a, b := Run(runs).done[i], Run(runs).done[i + 1];
      && a.day <= b.day
      && (a.day == b.day <==> !a.stored && (if a.hadCursor then b.today - 7 <= a.day else b.today == a.today))
  {
    var last := if runs == [] then 0 else runs[|runs| - 1].today;
    RunKeeps(runs, last);
    var done := Run(runs).done;
    assert Follows(done[i], done[i + 1]);
    DayBeforeToday(runs, i);
  }

  /** Every day is distilled after it ended, and without a cursor only yesterday is. */
  lemma {:induction false} DayBeforeToday(runs: seq<Cron>, i: nat)
    requires DatesAscend(runs) && i < |Run(runs).done|
    ensures var d := Run(runs).done[i];
      d.day < d.today && (!d.hadCursor ==> d.day == d.today - 1) && d.day >= d.today - 7
  {
    var n := |runs| - 1;
    assert DatesAscend(runs[..n]) by {
      assert forall i :: 0 <= i < n ==> runs[..n][i] == runs[i];
    }
    var s := Run(runs[..n]);
    if runs[n].setUp {
      var yesterday := runs[n].today - 1;
      DaysUpToAt(Max(if s.cursor.None? then yesterday else s.cursor.value + 1, yesterday - 6), yesterday);
      TakenInWindow(s, s, PendingDays(s.cursor, runs[n].today), runs[n].today, runs[n].fates, 0);
    }
    if i < |s.done| { DayBeforeToday(runs[..n], i); }
  }

  /** A run only appends, and what it appends lies in the window. */
  lemma {:induction false} TakenInWindow(s0: State, s: State, days: seq<int>, today: int, fates: seq<Fate>, k: nat)
    requires k <= |days| && |s0.done| <= |s.done| && s.done[..|s0.done|] == s0.done
    requires forall i :: 0 <= i < |days| ==> today - 7 <= days[i] < today
    requires s0.cursor.None? ==> |days| <= 1 && (|days| == 1 ==> days[0] == today - 1)
    requires s.cursor.None? ==> s0.cursor.None?
    requires forall i :: |s0.done| <= i < |s.done| ==> InWindow(s.done[i], today)
    ensures var r := TakeDays(s, days, today, fates, k);
      && |r.done| >= |s0.done| && r.done[..|s0.done|] == s0.done
      && forall i :: |s0.done| <= i < |r.done| ==> InWindow(r.done[i], today)
    decreases |days| - k
  {
    if k < |days| && FateAt(fates, k).Succeeds? {
      TakenInWindow(s0, Distilled(s, days[k], today, true), days, today, fates, k + 1);
    }
  }

  predicate InWindow(d: Done, today: int) {
    d.today == today && today - 7 <= d.day < today && (!d.hadCursor ==> d.day == today - 1)
  }

  /** With every cursor write in place the distilled days strictly increase, so none is repeated. */
  lemma DaysStrictlyIncrease(runs: seq<Cron>)
    requires DatesAscend(runs)
    requires forall k :: 0 <= k < |runs| ==> StoreFails !in runs[k].fates
    ensures var done := Run(runs).done; forall i, j :: 0 <= i < j < |done| ==> done[i].day < done[j].day
  {
    var done := Run(runs).done;
    DaysFollow(runs);
    AllStored(runs);
    forall i, j | 0 <= i < j < |done| ensures done[i].day < done[j].day {
      Increasing(done, i, j);
    }
  }

  lemma {:induction false} Increasing(done: seq<Done>, i: nat, j: nat)
    requires i < j < |done|
    requires Chain(done) && Stored(done)
    ensures done[i].day < done[j].day
  {
    assert Follows(done[j - 1], done[j - 1 + 1]);
    if i < j - 1 { Increasing(done, i, j - 1); }
  }

  lemma {:induction false} AllStored(runs: seq<Cron>)
    requires forall k :: 0 <= k < |runs| ==> StoreFails !in runs[k].fates
    ensures Stored(Run(runs).done)
  {
    if runs != [] {
      var n := |runs| - 1;
      AllStored(runs[..n]);
      var s := Run(runs[..n]);
      if runs[n].setUp { TakeDaysStored(s, PendingDays(s.cursor, runs[n].today), runs[n].today, runs[n].fates, 0); }
    }
  }

  lemma {:induction false} TakeDaysStored(s: State, days: seq<int>, today: int, fates: seq<Fate>, k: nat)
    requires k <= |days| && StoreFails !in fates && Stored(s.done)
    ensures Stored(TakeDays(s, days, today, fates, k).done)
    decreases |days| - k
  {
    if k < |fates| { assert fates[k] in fates; }
    if k < |days| && FateAt(fates, k).Succeeds? {
      TakeDaysStored(Distilled(s, days[k], today, true), days, today, fates, k + 1);
    }
  }

  /** A day between two distilled ones was skipped only if it had left the window when the later one ran,
      provided there was a cursor or the earlier one was stored. */
  lemma SkippedOnlyIfOld(runs: seq<Cron>, i: nat, day: int)
    requires DatesAscend(runs) && i + 1 < |Run(runs).done|
    requires Run(runs).done[i].day < day < Run(runs).done[i + 1].day
    requires Run(runs).done[i].stored || Run(runs).done[i].hadCursor
    ensures day < Run(runs).done[i + 1].today - 7
  {
    DaysFollow(runs);
    assert Follows(Run(runs).done[i], Run(runs).done[i + 1]);
  }

  // ----- The failed day -----

  /** How far a run gets: the index of the first day that does not succeed. */
  function Reach(days: seq<int>, fates: seq<Fate>, k: nat): (r: nat)
    requires k <= |days|
    ensures k <= r <= |days|
    decreases |days| - k
  {
    if k < |days| && FateAt(fates, k).Succeeds? then Reach(days, fates, k + 1) else k
  }

  lemma {:induction false} CursorAtReach(s: State, days: seq<int>, today: int, fates: seq<Fate>, k: nat)
    requires k <= |days|
    ensures var n := Reach(days, fates, k);
      TakeDays(s, days, today, fates, k).cursor == if n > k then Some(days[n - 1]) else s.cursor
    decreases |days| - k
  {
    if k < |days| && FateAt(fates, k).Succeeds? {
      CursorAtReach(Distilled(s, days[k], today, true), days, today, fates, k + 1);
    }
  }

  /** The day a run stopped at, if it did not finish. */
  function StoppedAt(cursor: Option<int>, c: Cron): Option<int> {
    var days := PendingDays(cursor, c.today);
    var n := Reach(days, c.fates, 0);
    if n < |days| then Some(days[n]) else None
  }

  /** The day a run stopped at is the first one the next run tries, or the oldest day of its window, if and
      only if some cursor exists by then or the next run is on the same date. On a first run that fails,
      the day is lost: the next date's run starts at its own yesterday. */
  lemma FailedDayIsNext(s: State, c: Cron, next: int)
    requires c.setUp && c.today <= next
    requires StoppedAt(s.cursor, c).Some?
    ensures var day := StoppedAt(s.cursor, c).value;
      var s' := RunOnce(s, c);
      var tried := PendingDays(s'.cursor, next);
      && tried != []
      && (tried[0] == Max(day, next - 7) <==> s'.cursor.Some? || next == c.today)
  {
    var days := PendingDays(s.cursor, c.today);
    var yesterday := c.today - 1;
    var start := Max(if s.cursor.None? then yesterday else s.cursor.value + 1, yesterday - 6);
    DaysUpToAt(start, yesterday);
    CursorAtReach(s, days, c.today, c.fates, 0);
    var s' := RunOnce(s, c);
    DaysUpToAt(Max(if s'.cursor.None? then next - 1 else s'.cursor.value + 1, next - 7), next - 1);
  }

  /** A run that stops nowhere leaves nothing pending. */
  lemma FinishedMeansCaughtUp(s: State, c: Cron)
    requires c.setUp && StoppedAt(s.cursor, c).None?
    ensures PendingDays(RunOnce(s, c).cursor, c.today) == []
  {
    var days := PendingDays(s.cursor, c.today);
    var yesterday := c.today - 1;
    DaysUpToAt(Max(if s.cursor.None? then yesterday else s.cursor.value + 1, yesterday - 6), yesterday);
    CursorAtReach(s, days, c.today, c.fates, 0);
  }

  /** A failed cursor write makes the day run again: days 9 and 9. */
  lemma UnstoredDayRepeats()
    ensures var runs := [Cron(10, true, [StoreFails]), Cron(10, true, [])];
      DatesAscend(runs) && Run(runs).done == [Done(9, 10, false, false), Done(9, 10, true, false)]
  {
    var a, b := Cron(10, true, [StoreFails]), Cron(10, true, []);
    assert DaysUpTo(9, 9) == [9] + DaysUpTo(10, 9);
    assert PendingDays(None, 10) == [9];
    assert [a, b][..1] == [a] && [a][..0] == [];
    assert Run([]) == EMPTY;
    assert Run([a]) == RunOnce(EMPTY, a) == State(None, [Done(9, 10, false, false)]);
    assert Run([a, b]) == RunOnce(Run([a]), b);
  }
}
