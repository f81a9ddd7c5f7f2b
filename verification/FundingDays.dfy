/** The daily book: the PnL of each UTC day is what arose at the bars of that day. */
module FundingDays {
  import opened Options
  import opened FundingReplay
  import opened FundingDiscipline

  /** What a replay has earned so far: closed trades, and funding accrued on an open position. */
  function Earned(s: State): real { SumNet(s.trades) + s.cumFunding }

  datatype DayPnl = DayPnl(day: int, pnl: real)

  /** The earnings of each bar with data, added up by the day of the bar. */
  function ByDay(bars: seq<Quote>, m: Market): seq<DayPnl> {
    if bars == [] then []
    else
      var n := |bars| - 1;
      Extended(Play(bars[..n], m.spot, m.events, m.c), bars[n], ByDay(bars[..n], m), m)
  }

  function Entered(days: seq<DayPnl>, day: int, gain: real): seq<DayPnl> {
    var n := |days| - 1;
    if days != [] && days[n].day == day then days[..n] + [DayPnl(day, days[n].pnl + gain)]
    else days + [DayPnl(day, gain)]
  }

  function Pnls(days: seq<DayPnl>): seq<real> {
    if days == [] then [] else Pnls(days[..|days| - 1]) + [days[|days| - 1].pnl]
  }

  predicate Ascend(days: seq<DayPnl>) { forall i, j :: 0 <= i < j < |days| ==> days[i].day < days[j].day }

  /** The state holds the days so far: the last one open, the others closed. */
  predicate Holds(s: State, days: seq<DayPnl>) {
    if days == [] then s.day.None? && s.daily == []
    else
      var n := |days| - 1;
      s.day == Some(days[n].day) && s.daily == Pnls(days[..n]) && s.dayPnl == days[n].pnl
  }

  lemma PnlsSnoc(days: seq<DayPnl>, d: DayPnl)
    ensures Pnls(days + [d]) == Pnls(days) + [d.pnl]
  {
    assert (days + [d])[..|days + [d]| - 1] == days;
  }

  /** After rolling the day, what a bar adds to the day's PnL is what it earns. */
  lemma StepEarns(s: State, bar: Quote, m: Market)
    requires Balanced(s) && !s.raised && Latest(m.spot, bar.at).Some? && Latest(m.events, bar.at).Some?
    ensures var s', s1 := Step(s, bar, m.spot, m.events, m.c), RollDay(s, bar.at);
      s'.day == s1.day && s'.daily == s1.daily && s'.dayPnl == s1.dayPnl + (Earned(s') - Earned(s))
  {
    StepBalances(s, bar, m.spot, m.events, m.c);
    RollBalances(s, bar.at);
    StepKeepsDays(s, bar, m);
  }

  lemma StepKeepsDays(s: State, bar: Quote, m: Market)
    requires !s.raised && Latest(m.spot, bar.at).Some? && Latest(m.events, bar.at).Some?
    ensures var s', s1 := Step(s, bar, m.spot, m.events, m.c), RollDay(s, bar.at);
      s'.day == s1.day && s'.daily == s1.daily && Earned(s1) == Earned(s)
  {
  }

  lemma EnterHolds(s: State, s': State, days: seq<DayPnl>, at: int, gain: real)
    requires Holds(s, days) && (days == [] ==> s.dayPnl == 0.0)
    requires var s1 := RollDay(s, at); s'.day == s1.day && s'.daily == s1.daily && s'.dayPnl == s1.dayPnl + gain
    ensures Holds(s', Entered(days, at / 86_400_000, gain))
  {
    var day := at / 86_400_000;
    var r := Entered(days, day, gain);
    if days != [] {
      var n := |days| - 1;
      assert days == days[..n] + [days[n]];
      PnlsSnoc(days[..n], days[n]);
    }
    assert r[..|r| - 1] == if days != [] && days[|days| - 1].day == day then days[..|days| - 1] else days;
  }

  /** The day of the last entry is not after the bars so far. */
  predicate UpToDay(days: seq<DayPnl>, bars: seq<Quote>) {
    days != [] ==> bars != [] && days[|days| - 1].day <= bars[|bars| - 1].at / 86_400_000
  }

  /** The days after one more bar. */
  function Extended(s: State, bar: Quote, days: seq<DayPnl>, m: Market): seq<DayPnl> {
    if s.raised || Latest(m.spot, bar.at).None? || Latest(m.events, bar.at).None? then days
    else Entered(days, bar.at / 86_400_000, Earned(Step(s, bar, m.spot, m.events, m.c)) - Earned(s))
  }

  lemma StepHolds(s: State, bar: Quote, days: seq<DayPnl>, m: Market)
    requires Balanced(s) && Holds(s, days)
    ensures Holds(Step(s, bar, m.spot, m.events, m.c), Extended(s, bar, days, m))
  {
    if !s.raised && Latest(m.spot, bar.at).Some? && Latest(m.events, bar.at).Some? {
      StepEarns(s, bar, m);
      var s' := Step(s, bar, m.spot, m.events, m.c);
      EnterHolds(s, s', days, bar.at, Earned(s') - Earned(s));
    }
  }

  lemma {:induction false} PlayHolds(bars: seq<Quote>, m: Market)
    ensures Holds(Play(bars, m.spot, m.events, m.c), ByDay(bars, m))
  {
    if bars != [] {
      var n := |bars| - 1;
      PlayHolds(bars[..n], m);
      PlayBalances(bars[..n], m.spot, m.events, m.c);
      StepHolds(Play(bars[..n], m.spot, m.events, m.c), bars[n], ByDay(bars[..n], m), m);
    }
  }

  lemma {:induction false} DaysAscend(bars: seq<Quote>, m: Market)
    requires Ascending(bars)
    ensures Ascend(ByDay(bars, m)) && UpToDay(ByDay(bars, m), bars)
  {
    if bars != [] {
      var n := |bars| - 1;
      assert Ascending(bars[..n]) by { assert forall i :: 0 <= i < n ==> bars[..n][i] == bars[i]; }
      DaysAscend(bars[..n], m);
      if n > 0 { LaterDay(bars[n - 1].at, bars[n].at); }
    }
  }

  lemma LaterDay(a: int, b: int)
    requires a <= b
    ensures a / 86_400_000 <= b / 86_400_000
  {
  }

  /** The daily book lists the days with data in order, each once, with exactly what was earned at the bars of that
      day. */
  lemma DailyBookIsByDay(bars: seq<Quote>, m: Market)
    requires Ascending(bars)
    ensures DailyBook(Play(bars, m.spot, m.events, m.c)) == Pnls(ByDay(bars, m)) && Ascend(ByDay(bars, m))
  {
    PlayHolds(bars, m);
    DaysAscend(bars, m);
    var days := ByDay(bars, m);
    if days != [] {
      var n := |days| - 1;
      assert days == days[..n] + [days[n]];
      PnlsSnoc(days[..n], days[n]);
    }
  }
}
