/** The distillation job as cron runs it: the stored cursor moves day by day. */
module DistillJobs {
  import opened Options
  import opened MemoryDistill

  class DistillJob {
    var cursor: Option<int>
    ghost var done: seq<Done>

    ghost function State(): State
      reads this
    {
      MemoryDistill.State(cursor, done)
    }

    constructor ()
      ensures State() == EMPTY
    {
      cursor, done := None, [];
    }

    /** One cron run; the code is 0 exactly when no day stopped it, and then nothing is pending. */
    method RunDaily(today: int, fates: seq<Fate>) returns (code: int)
      modifies this
      ensures State() == RunOnce(old(State()), Cron(today, true, fates))
      ensures code == 0 <==> StoppedAt(old(cursor), Cron(today, true, fates)).None?
      ensures code == 0 ==> PendingDays(cursor, today) == []
    {
      var days := PendingDays(cursor, today);
      var k := 0;
      while k < |days|
        invariant 0 <= k <= |days|
        invariant TakeDays(old(State()), days, today, fates, 0) == TakeDays(State(), days, today, fates, k)
        invariant Reach(days, fates, 0) == Reach(days, fates, k)
      {
        if FateAt(fates, k).Fails? { return 1; }
        done := done + [Done(days[k], today, FateAt(fates, k).Succeeds?, cursor.Some?)];
        if FateAt(fates, k).StoreFails? { return 1; }
        cursor := Some(days[k]);
        k := k + 1;
      }
      FinishedMeansCaughtUp(old(State()), Cron(today, true, fates));
      code := 0;
    }
  }
}
