/** When the replay enters and leaves: every trade obeys the entry rules and the cooldown, and is closed at
    the first bar that gives a reason to. */
module FundingDiscipline {
  import opened Options
  import opened FundingReplay

  datatype Market = Market(spot: seq<Quote>, events: seq<Quote>, c: Config)

  /** The reason a bar gives to leave a position entered at `entry`; a bar without data gives none. */
  function ReasonAt(bar: Quote, entry: int, m: Market): Option<Reason> {
    var price, rate := Latest(m.spot, bar.at), Latest(m.events, bar.at);
    if price.None? || rate.None? then None
    else ExitReason(rate.value.value, BasisOf(bar.value, price.value.value), bar.at, entry, m.c)
  }

  ghost predicate QuietUntil(bars: seq<Quote>, entry: int, until: int, m: Market) {
    forall k :: 0 <= k < |bars| && entry < bars[k].at < until ==> ReasonAt(bars[k], entry, m).None?
  }

  /** The trade left at a bar of its exit time, for the reason that bar gave, and no bar in between gave any. */
  ghost predicate LeftInTime(t: Trade, bars: seq<Quote>, m: Market) {
    && (exists k :: 0 <= k < |bars| && bars[k].at == t.exitAt && ReasonAt(bars[k], t.entryAt, m) == Some(t.reason))
    && QuietUntil(bars, t.entryAt, t.exitAt, m)
  }

  /** Positive funding above the threshold, a net edge after costs, and a basis below the entry limit. */
  predicate MayEnter(rate: real, basis: Basis, c: Config) {
    && rate > 0.0 && rate * 1095.0 > c.fundingThreshold
    && c.expectedPeriods != 0.0 && NetEdge(rate, c) > 0.0
    && Below(basis, c.maxBasisPct * c.entryBasisRatio)
  }

  /** One trade after the other, with the cooldown in between. */
  predicate Follows(prev: Trade, entryAt: int, c: Config) {
    entryAt >= prev.exitAt && entryAt - prev.exitAt >= c.cooldown
  }

  ghost predicate Cooled(trades: seq<Trade>, c: Config) {
    forall k :: 0 <= k < |trades| - 1 ==> Follows(trades[k], trades[k + 1].entryAt, c)
  }

  ghost predicate TradeOk(t: Trade, bars: seq<Quote>, m: Market) {
    && MayEnter(t.entryRate, t.entryBasis, m.c) && LeftInTime(t, bars, m)
    && t.entryAt <= t.exitAt && t.hold == t.exitAt - t.entryAt
  }

  /** A position still open: entered by the rules, after the cooldown, and no bar since gave a reason to leave. */
  ghost predicate OpenOk(s: State, bars: seq<Quote>, m: Market) {
    s.position.Short? ==>
      var p := s.position;
      && !s.raised && bars != [] && p.entryAt <= bars[|bars| - 1].at
      && Latest(m.events, p.entryAt).Some?
      && MayEnter(Latest(m.events, p.entryAt).value.value, BasisOf(p.entryPrice, p.spot.entryPrice), m.c)
      && QuietUntil(bars, p.entryAt, bars[|bars| - 1].at + 1, m)
      && (s.trades != [] ==> Follows(s.trades[|s.trades| - 1], p.entryAt, m.c))
  }

  ghost predicate Disciplined(s: State, bars: seq<Quote>, m: Market) {
    && (forall k :: 0 <= k < |s.trades| ==> TradeOk(s.trades[k], bars, m))
    && Cooled(s.trades, m.c)
    && OpenOk(s, bars, m)
    && (s.position.Flat? && s.trades != [] ==> s.lastSignal == s.trades[|s.trades| - 1].exitAt)
  }

  lemma TradeStaysOk(t: Trade, bars: seq<Quote>, bar: Quote, m: Market)
    requires TradeOk(t, bars, m) && Ascending(bars + [bar])
    ensures TradeOk(t, bars + [bar], m)
  {
    var k :| 0 <= k < |bars| && bars[k].at == t.exitAt && ReasonAt(bars[k], t.entryAt, m) == Some(t.reason);
    var more := bars + [bar];
    assert more[k] == bars[k] && more[k].at <= more[|bars|].at;
    forall j | 0 <= j < |more| && t.entryAt < more[j].at < t.exitAt ensures ReasonAt(more[j], t.entryAt, m).None? {
      assert more[j] == bars[j];
    }
  }

  /** What a managed bar does: without a reason it leaves trades and entry alone, with one it closes. */
  lemma BarManages(s: State, bar: Quote, m: Market)
    requires s.position.Short? && !s.raised && Latest(m.spot, bar.at).Some? && Latest(m.events, bar.at).Some?
    requires Latest(m.events, s.position.entryAt).Some?
    ensures var s', p := Step(s, bar, m.spot, m.events, m.c), s.position;
      match ReasonAt(bar, p.entryAt, m)
      case None =>
        && s'.trades == s.trades && !s'.raised && s'.position.Short?
        && s'.position.entryAt == p.entryAt && s'.position.entryPrice == p.entryPrice
        && s'.position.spot.entryPrice == p.spot.entryPrice
      case Some(why) =>
        && s'.position.Flat? && s'.lastSignal == bar.at && |s'.trades| == |s.trades| + 1
        && var t := s'.trades[|s.trades|];
        && s'.trades == s.trades + [t]
        && t.entryAt == p.entryAt && t.exitAt == bar.at && t.reason == why && t.hold == bar.at - p.entryAt
        && t.entryRate == Latest(m.events, p.entryAt).value.value
        && t.entryBasis == BasisOf(p.entryPrice, p.spot.entryPrice)
  {
  }

  /** A managed bar: the trade closes now if the bar gives a reason, and stays quiet if not. */
  lemma ManageDisciplined(s: State, bars: seq<Quote>, bar: Quote, m: Market)
    requires Disciplined(s, bars, m) && Ascending(bars + [bar]) && s.position.Short?
    requires Latest(m.spot, bar.at).Some? && Latest(m.events, bar.at).Some?
    ensures Disciplined(Step(s, bar, m.spot, m.events, m.c), bars + [bar], m)
  {
    var more, p := bars + [bar], s.position;
    assert more[|bars| - 1].at <= more[|bars|].at;
    BarManages(s, bar, m);
    QuietSnoc(bars, bar, p.entryAt, m);
    OldTradesStayOk(s, bars, bar, m);
    var s' := Step(s, bar, m.spot, m.events, m.c);
    if ReasonAt(bar, p.entryAt, m).Some? {
      var t := s'.trades[|s.trades|];
      ClosedTradeOk(t, s, bars, bar, m);
      ClosedDisciplined(s, s', t, bars, bar, m);
    }
  }

  lemma ClosedTradeOk(t: Trade, s: State, bars: seq<Quote>, bar: Quote, m: Market)
    requires OpenOk(s, bars, m) && s.position.Short? && Ascending(bars + [bar])
    requires QuietUntil(bars + [bar], s.position.entryAt, bar.at, m)
    requires t.entryAt == s.position.entryAt && t.exitAt == bar.at && t.hold == bar.at - t.entryAt
    requires Some(t.reason) == ReasonAt(bar, t.entryAt, m)
    requires t.entryRate == Latest(m.events, t.entryAt).value.value
    requires t.entryBasis == BasisOf(s.position.entryPrice, s.position.spot.entryPrice)
    ensures TradeOk(t, bars + [bar], m)
  {
    var more := bars + [bar];
    assert more[|bars|] == bar && more[|bars| - 1].at <= more[|bars|].at;
  }

  lemma ClosedDisciplined(s: State, s': State, t: Trade, bars: seq<Quote>, bar: Quote, m: Market)
    requires Cooled(s.trades, m.c) && OpenOk(s, bars, m) && s.position.Short?
    requires forall k :: 0 <= k < |s.trades| ==> TradeOk(s.trades[k], bars + [bar], m)
    requires TradeOk(t, bars + [bar], m) && t.entryAt == s.position.entryAt && t.exitAt == bar.at
    requires s'.trades == s.trades + [t] && s'.position.Flat? && s'.lastSignal == bar.at
    ensures Disciplined(s', bars + [bar], m)
  {
  }

  lemma OldTradesStayOk(s: State, bars: seq<Quote>, bar: Quote, m: Market)
    requires Disciplined(s, bars, m) && Ascending(bars + [bar])
    ensures forall k :: 0 <= k < |s.trades| ==> TradeOk(s.trades[k], bars + [bar], m)
  {
    forall k | 0 <= k < |s.trades| ensures TradeOk(s.trades[k], bars + [bar], m) {
      TradeStaysOk(s.trades[k], bars, bar, m);
    }
  }

  lemma QuietSnoc(bars: seq<Quote>, bar: Quote, entry: int, m: Market)
    requires bars != [] && Ascending(bars + [bar]) && QuietUntil(bars, entry, bars[|bars| - 1].at + 1, m)
    ensures QuietUntil(bars + [bar], entry, bar.at, m)
    ensures ReasonAt(bar, entry, m).None? ==> QuietUntil(bars + [bar], entry, bar.at + 1, m)
  {
    var more := bars + [bar];
    forall j | 0 <= j < |bars| && entry < bars[j].at ensures ReasonAt(more[j], entry, m).None? {
      assert more[j] == bars[j] && more[j].at <= more[|bars| - 1].at;
    }
  }

  lemma FlatDisciplined(s: State, bars: seq<Quote>, bar: Quote, m: Market)
    requires Disciplined(s, bars, m) && Ascending(bars + [bar]) && s.position.Flat?
    ensures Disciplined(Step(s, bar, m.spot, m.events, m.c), bars + [bar], m)
  {
    OldTradesStayOk(s, bars, bar, m);
    BarOpens(s, bar, m);
    assert (bars + [bar])[|bars|] == bar;
  }

  /** What a bar does without a position: it opens one by the rules and after the cooldown, or changes neither
      the trades nor the last signal. */
  lemma BarOpens(s: State, bar: Quote, m: Market)
    requires s.position.Flat?
    ensures var s' := Step(s, bar, m.spot, m.events, m.c);
      && s'.trades == s.trades
      && (s'.position.Flat? ==> s'.lastSignal == s.lastSignal)
      && (s'.position.Short? ==>
            var p := s'.position;
            && !s'.raised && p.entryAt == bar.at && bar.at - s.lastSignal >= m.c.cooldown
            && Latest(m.events, bar.at).Some?
            && MayEnter(Latest(m.events, bar.at).value.value, BasisOf(p.entryPrice, p.spot.entryPrice), m.c))
  {
  }

  lemma StepDisciplined(s: State, bars: seq<Quote>, bar: Quote, m: Market)
    requires Disciplined(s, bars, m) && Ascending(bars + [bar])
    ensures Disciplined(Step(s, bar, m.spot, m.events, m.c), bars + [bar], m)
  {
    if s.position.Flat? {
      FlatDisciplined(s, bars, bar, m);
    } else if Latest(m.spot, bar.at).Some? && Latest(m.events, bar.at).Some? {
      ManageDisciplined(s, bars, bar, m);
    } else {
      SkippedDisciplined(s, bars, bar, m);
    }
  }

  lemma SkippedDisciplined(s: State, bars: seq<Quote>, bar: Quote, m: Market)
    requires Disciplined(s, bars, m) && Ascending(bars + [bar]) && s.position.Short?
    requires Latest(m.spot, bar.at).None? || Latest(m.events, bar.at).None?
    ensures Disciplined(Step(s, bar, m.spot, m.events, m.c), bars + [bar], m)
  {
    var more := bars + [bar];
    OldTradesStayOk(s, bars, bar, m);
    QuietSnoc(bars, bar, s.position.entryAt, m);
    assert more[|bars| - 1].at <= more[|bars|].at;
  }

  lemma {:induction false} PlayIsDisciplined(bars: seq<Quote>, m: Market)
    requires Ascending(bars)
    ensures Disciplined(Play(bars, m.spot, m.events, m.c), bars, m)
  {
    if bars != [] {
      var n := |bars| - 1;
      assert bars[..n] + [bars[n]] == bars;
      PlayIsDisciplined(bars[..n], m);
      StepDisciplined(Play(bars[..n], m.spot, m.events, m.c), bars[..n], bars[n], m);
    }
  }

  /** Over ascending bars, every trade entered on positive funding above the threshold and a small basis, at
      least the cooldown after the one before, and left at the first bar that gave a reason, for that reason;
      a position still open has been given none. */
  lemma TradesFollowTheRules(bars: seq<Quote>, m: Market)
    requires Ascending(bars)
    ensures var s := Play(bars, m.spot, m.events, m.c);
      && (forall k :: 0 <= k < |s.trades| ==> TradeOk(s.trades[k], bars, m))
      && Cooled(s.trades, m.c)
      && (s.position.Short? ==> forall k :: 0 <= k < |bars| && s.position.entryAt < bars[k].at ==>
            ReasonAt(bars[k], s.position.entryAt, m).None?)
  {
    PlayIsDisciplined(bars, m);
    var s := Play(bars, m.spot, m.events, m.c);
    if s.position.Short? {
      forall k | 0 <= k < |bars| && s.position.entryAt < bars[k].at
        ensures ReasonAt(bars[k], s.position.entryAt, m).None?
      {
        assert bars[k].at <= bars[|bars| - 1].at;
      }
    }
  }

  /** In particular a position is never held past the maximum at a bar with data without being closed there:
      a trade that ended for another reason, or was still open, had not been overdue at any earlier bar. */
  lemma NeverOverdue(bars: seq<Quote>, m: Market, i: nat, k: nat)
    requires Ascending(bars) && i < |Play(bars, m.spot, m.events, m.c).trades| && k < |bars|
    requires Latest(m.spot, bars[k].at).Some? && Latest(m.events, bars[k].at).Some? && m.c.maxHold >= 0
    ensures var t := Play(bars, m.spot, m.events, m.c).trades[i];
      t.entryAt < bars[k].at < t.exitAt ==> bars[k].at - t.entryAt <= m.c.maxHold
  {
    TradesFollowTheRules(bars, m);
    var t := Play(bars, m.spot, m.events, m.c).trades[i];
    assert TradeOk(t, bars, m);
    if t.entryAt < bars[k].at < t.exitAt { assert ReasonAt(bars[k], t.entryAt, m).None?; }
  }

  // ----- No event is paid twice -----

  lemma {:induction false} TradesInOrder(trades: seq<Trade>, c: Config, i: nat, j: nat)
    requires i < j < |trades| && Cooled(trades, c)
    requires forall k :: 0 <= k < |trades| ==> trades[k].entryAt <= trades[k].exitAt
    ensures trades[i].exitAt <= trades[j].entryAt
  {
    assert Follows(trades[j - 1], trades[j - 1 + 1].entryAt, c);
    if i < j - 1 { TradesInOrder(trades, c, i, j - 1); }
  }

  predicate PaidIn(since: int, t: int, until: int) { since < t <= until }

  /** A time lies in the funding interval of at most one trade, or of the position still open: the intervals
      (entry, exit] follow each other, so no event is paid to two of them. */
  lemma NoEventIsPaidTwice(bars: seq<Quote>, m: Market, t: int, i: nat)
    requires Ascending(bars) && i < |Play(bars, m.spot, m.events, m.c).trades|
    requires var a := Play(bars, m.spot, m.events, m.c).trades[i]; PaidIn(a.entryAt, t, a.exitAt)
    ensures var s := Play(bars, m.spot, m.events, m.c);
      && (forall j :: 0 <= j < |s.trades| && j != i ==> !PaidIn(s.trades[j].entryAt, t, s.trades[j].exitAt))
      && (s.position.Short? ==> t <= s.position.entryAt)
  {
    PlayIsDisciplined(bars, m);
    PaidOnce(Play(bars, m.spot, m.events, m.c), bars, m, t, i);
  }

  lemma PaidOnce(s: State, bars: seq<Quote>, m: Market, t: int, i: nat)
    requires Disciplined(s, bars, m) && i < |s.trades| && PaidIn(s.trades[i].entryAt, t, s.trades[i].exitAt)
    ensures forall j :: 0 <= j < |s.trades| && j != i ==> !PaidIn(s.trades[j].entryAt, t, s.trades[j].exitAt)
    ensures s.position.Short? ==> t <= s.position.entryAt
  {
    forall k | 0 <= k < |s.trades| ensures s.trades[k].entryAt <= s.trades[k].exitAt {
      assert TradeOk(s.trades[k], bars, m);
    }
    forall j | 0 <= j < |s.trades| && j != i ensures !PaidIn(s.trades[j].entryAt, t, s.trades[j].exitAt) {
      if i < j { TradesInOrder(s.trades, m.c, i, j); } else { TradesInOrder(s.trades, m.c, j, i); }
    }
    var n := |s.trades| - 1;
    if s.position.Short? && i < n { TradesInOrder(s.trades, m.c, i, n); }
  }
}
