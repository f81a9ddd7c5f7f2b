/** The funding-harvest replay: a simulation over perp bars that opens, funds, rebalances and closes
    a two-legged position. Prices, rates and PnL are reals; times are milliseconds. */
module FundingReplay {
  import opened Options

  const ANNUALIZATION := 1095.0   // three settlements a day, 365 days
  const DAY := 86_400_000
  const PERP_FEE_BPS_PER_SIDE := 5.5
  const SPOT_FEE_BPS_PER_SIDE := 10.0

  /** A bar with its close price, or a funding event with its rate. */
  datatype Quote = Quote(at: int, value: real)

  datatype Config = Config(
    fundingThreshold: real, fundingExit: real, maxBasisPct: real, entryBasisRatio: real, maxHold: int,
    totalCostBps: real, expectedPeriods: real, rebalanceCheck: int, driftThreshold: real,
    positionCap: real, cooldown: int)

  // ----- Looking up the past -----

  ghost predicate Ascending(q: seq<Quote>) {
    forall i, j :: 0 <= i < j < |q| ==> q[i].at <= q[j].at
  }

  ghost predicate StrictlyAscending(q: seq<Quote>) {
    forall i, j :: 0 <= i < j < |q| ==> q[i].at < q[j].at
  }

  /** The newest quote at or before `t`; of several with the same time, the last one listed. */
  function Latest(q: seq<Quote>, t: int): Option<Quote> {
    if q == [] then None
    else
      var before, last := Latest(q[..|q| - 1], t), q[|q| - 1];
      if last.at <= t && (before.None? || last.at >= before.value.at) then Some(last) else before
  }

  function ValueOf(q: Option<Quote>): Option<real> { if q.Some? then Some(q.value.value) else None }

  /** What was known at time `t`. */
  function UpTo(q: seq<Quote>, t: int): seq<Quote> {
    if q == [] then []
    else UpTo(q[..|q| - 1], t) + if q[|q| - 1].at <= t then [q[|q| - 1]] else []
  }

  // ----- The synthetic spot leg -----

  datatype Ledger = Ledger(isOpen: bool, entryNotional: real, entryPrice: real, entryAt: int, qty: real,
                           rebalances: nat, lastRebalancePrice: real, lastRebalanceAt: int)

  const CLOSED_LEDGER := Ledger(false, 0.0, 0.0, 0, 0.0, 0, 0.0, 0)

  function OpenLong(notional: real, price: real, at: int): Ledger
    requires price > 0.0
  {
    Ledger(true, notional, price, at, notional / price, 0, price, at)
  }

  /** Only the quantity moves; the entry price stays the basis of the PnL. */
  function Rebalance(l: Ledger, target: real, price: real, at: int): Ledger {
    if !l.isOpen || price <= 0.0 then l
    else l.(qty := target / price, rebalances := l.rebalances + 1,
            lastRebalancePrice := price, lastRebalanceAt := at)
  }

  function ClosePnl(l: Ledger, price: real): real {
    if l.isOpen then (price - l.entryPrice) * l.qty else 0.0
  }

  function Abs(x: real): real { if x < 0.0 then -x else x }

  function DeltaDrift(l: Ledger, perpNotional: real, price: real): real {
    if !l.isOpen then 0.0
    else
      var spotNotional := l.qty * price;
      if spotNotional <= 0.0 then 0.0 else Abs((spotNotional - perpNotional) / spotNotional)
  }

  // ----- Decisions -----

  datatype Basis = Unbounded | Pct(pct: real)

  function BasisOf(perp: real, spot: real): Basis {
    if spot <= 0.0 then Unbounded else Pct(Abs(perp / spot - 1.0) * 100.0)
  }

  predicate Below(b: Basis, limit: real) { b.Pct? && b.pct < limit }
  predicate Above(b: Basis, limit: real) { b.Unbounded? || b.pct > limit }

  datatype Entry = Refuse | Enter | DivisionByZero

  /** What a period is expected to earn, in basis points, after its share of the costs. */
  function NetEdge(rate: real, c: Config): real
    requires c.expectedPeriods != 0.0
  {
    Abs(rate) * 10_000.0 - c.totalCostBps / c.expectedPeriods
  }

  function EntryDecision(rate: real, basis: Basis, perp: real, c: Config): Entry {
    if !(rate * ANNUALIZATION > c.fundingThreshold) then Refuse
    else if c.expectedPeriods == 0.0 then DivisionByZero
    else if !(NetEdge(rate, c) > 0.0) then Refuse
    else if !Below(basis, c.maxBasisPct * c.entryBasisRatio) then Refuse
    else if !(rate > 0.0) then Refuse
    else if perp == 0.0 then DivisionByZero
    else Enter
  }

  datatype Reason = FundingDecay | FundingFlip | BasisDrift | MaxHold

  function ExitReason(rate: real, basis: Basis, now: int, entry: int, c: Config): Option<Reason> {
    if rate * ANNUALIZATION < c.fundingExit then Some(FundingDecay)
    else if rate < 0.0 then Some(FundingFlip)
    else if Above(basis, c.maxBasisPct) then Some(BasisDrift)
    else if (if now - entry > 0 then now - entry else 0) > c.maxHold then Some(MaxHold)
    else None
  }

  // ----- State -----

  datatype Trade = Trade(
    entryAt: int, exitAt: int, entryRate: real, exitRate: real, entryBasis: Basis, exitBasis: Basis,
    entryPerp: real, exitPerp: real, entrySpot: real, exitSpot: real, perpQty: real, notional: real,
    funding: real, perpPnl: real, spotPnl: real, perpFee: real, spotFee: real, net: real,
    reason: Reason, hold: int)

  datatype Position = Flat | Short(entryAt: int, entryPrice: real, qty: real, notional: real,
                                   rebalanceCheckedAt: int, spot: Ledger)

  datatype State = State(
    position: Position, lastSignal: int, cumFunding: real, settledTo: int,
    trades: seq<Trade>, daily: seq<real>, day: Option<int>, dayPnl: real, raised: bool)

  const START := State(Flat, 0, 0.0, 0, [], [], None, 0.0, false)

  function RollDay(s: State, at: int): State {
    if s.day.None? then s.(day := Some(at / DAY))
    else if s.day.value == at / DAY then s
    else s.(daily := s.daily + [s.dayPnl], day := Some(at / DAY), dayPnl := 0.0)
  }

  /** A short position receives positive funding. */
  function Payment(rate: real, notional: real): real { rate * notional }

  /** The settlement loop: funding received and the time of the last event paid. */
  function Settled(events: seq<Quote>, since: int, until: int, notional: real): (real, int) {
    if events == [] then (0.0, since)
    else
      var (paid, last), e := Settled(events[..|events| - 1], since, until, notional), events[|events| - 1];
      if e.at > last && e.at <= until then (paid + Payment(e.value, notional), e.at) else (paid, last)
  }

  function Collect(s: State, events: seq<Quote>, at: int): State
    requires s.position.Short?
  {
    var (paid, last) := Settled(events, s.settledTo, at, s.position.notional);
    s.(cumFunding := s.cumFunding + paid, dayPnl := s.dayPnl + paid, settledTo := last)
  }

  function PerpPnl(p: Position, exit: real): real
    requires p.Short?
  {
    -(exit - p.entryPrice) * p.qty
  }

  function RoundTripFee(notional: real, bpsPerSide: real): real {
    notional * (bpsPerSide * 2.0 / 10_000.0)
  }

  function TradeOf(s: State, events: seq<Quote>, at: int, perp: real, spot: real, rate: real, basis: Basis,
                   why: Reason): Trade
    requires s.position.Short?
  {
    var p := s.position;
    var perpPnl := PerpPnl(p, perp);
    var spotPnl := ClosePnl(p.spot, spot);
    var perpFee := RoundTripFee(p.notional, PERP_FEE_BPS_PER_SIDE);
    var spotFee := RoundTripFee(p.notional, SPOT_FEE_BPS_PER_SIDE);
    var entry := Latest(events, p.entryAt);
    Trade(p.entryAt, at, if entry.Some? then entry.value.value else 0.0, rate,
          BasisOf(p.entryPrice, p.spot.entryPrice), basis, p.entryPrice, perp, p.spot.entryPrice, spot,
          p.qty, p.notional, s.cumFunding, perpPnl, spotPnl, perpFee, spotFee,
          s.cumFunding + perpPnl + spotPnl - perpFee - spotFee, why, at - p.entryAt)
  }

  function CloseTrade(s: State, t: Trade): State {
    State(Flat, t.exitAt, 0.0, 0, s.trades + [t], s.daily, s.day,
          s.dayPnl + (t.perpPnl + t.spotPnl - t.perpFee - t.spotFee), s.raised)
  }

  function CheckDrift(p: Position, at: int, spot: real, c: Config): Position
    requires p.Short?
  {
    if at - p.rebalanceCheckedAt > c.rebalanceCheck then
      p.(rebalanceCheckedAt := at,
         spot := if DeltaDrift(p.spot, p.notional, spot) > c.driftThreshold
                 then Rebalance(p.spot, p.notional, spot, at) else p.spot)
    else p
  }

  function Manage(s: State, events: seq<Quote>, at: int, perp: real, spot: real, rate: real, c: Config): State
    requires s.position.Short?
  {
    var s1, basis := Collect(s, events, at), BasisOf(perp, spot);
    match ExitReason(rate, basis, at, s.position.entryAt, c)
    case Some(why) => CloseTrade(s1, TradeOf(s1, events, at, perp, spot, rate, basis, why))
    case None => s1.(position := CheckDrift(s1.position, at, spot, c))
  }

  function MaybeOpen(s: State, at: int, perp: real, spot: real, rate: real, c: Config): State {
    if at - s.lastSignal < c.cooldown then s
    else
      match EntryDecision(rate, BasisOf(perp, spot), perp, c)
      case Refuse => s
      case DivisionByZero => s.(raised := true)
      case Enter =>
        s.(position := Short(at, perp, c.positionCap / perp, c.positionCap, at, OpenLong(c.positionCap, spot, at)),
           lastSignal := at, cumFunding := 0.0, settledTo := at)
  }

  /** One perp bar. A bar without a spot price or a funding rate is skipped. */
  function Step(s: State, bar: Quote, spot: seq<Quote>, events: seq<Quote>, c: Config): State {
    var price, rate := Latest(spot, bar.at), Latest(events, bar.at);
    if s.raised || price.None? || rate.None? then s
    else
      var s1 := RollDay(s, bar.at);
      if s1.position.Short? then Manage(s1, events, bar.at, bar.value, price.value.value, rate.value.value, c)
      else MaybeOpen(s1, bar.at, bar.value, price.value.value, rate.value.value, c)
  }

  function Play(bars: seq<Quote>, spot: seq<Quote>, events: seq<Quote>, c: Config): State {
    if bars == [] then START
    else Step(Play(bars[..|bars| - 1], spot, events, c), bars[|bars| - 1], spot, events, c)
  }

  function DailyBook(s: State): seq<real> {
    if s.day.Some? then s.daily + [s.dayPnl] else s.daily
  }

  // ----- The replay is causal -----

  lemma LatestSnoc(q: seq<Quote>, last: Quote, t: int)
    ensures Latest(q + [last], t)
      == if last.at <= t && (Latest(q, t).None? || last.at >= Latest(q, t).value.at) then Some(last) else Latest(q, t)
  {
    assert (q + [last])[..|q + [last]| - 1] == q;
  }

  lemma SettledSnoc(q: seq<Quote>, e: Quote, since: int, until: int, notional: real)
    ensures var (paid, last) := Settled(q, since, until, notional);
      Settled(q + [e], since, until, notional)
      == if e.at > last && e.at <= until then (paid + Payment(e.value, notional), e.at) else (paid, last)
  {
    assert (q + [e])[..|q + [e]| - 1] == q;
  }

  lemma {:induction false} LatestIsCausal(q: seq<Quote>, T: int, t: int)
    requires t <= T
    ensures Latest(q, t) == Latest(UpTo(q, T), t)
  {
    if q != [] {
      var init, last := q[..|q| - 1], q[|q| - 1];
      LatestIsCausal(init, T, t);
      LatestSnoc(UpTo(init, T), last, t);
      assert UpTo(init, T) + [] == UpTo(init, T);
    }
  }

  lemma {:induction false} SettledIsCausal(q: seq<Quote>, T: int, since: int, until: int, notional: real)
    requires until <= T
    ensures Settled(q, since, until, notional) == Settled(UpTo(q, T), since, until, notional)
  {
    if q != [] {
      var init, last := q[..|q| - 1], q[|q| - 1];
      SettledIsCausal(init, T, since, until, notional);
      if last.at <= T {
        SettledSnoc(UpTo(init, T), last, since, until, notional);
        assert UpTo(q, T) == UpTo(init, T) + [last];
      } else {
        assert UpTo(q, T) == UpTo(init, T) + [] == UpTo(init, T);
        assert Settled(q, since, until, notional) == Settled(init, since, until, notional);
      }
    }
  }

  lemma ManageIsCausal(s: State, events: seq<Quote>, events': seq<Quote>, at: int, perp: real, spot: real, rate: real,
                       c: Config, T: int)
    requires s.position.Short? && s.position.entryAt <= T && at <= T && UpTo(events, T) == UpTo(events', T)
    ensures Manage(s, events, at, perp, spot, rate, c) == Manage(s, events', at, perp, spot, rate, c)
  {
    LatestIsCausal(events, T, s.position.entryAt);
    LatestIsCausal(events', T, s.position.entryAt);
    SettledIsCausal(events, T, s.settledTo, at, s.position.notional);
    SettledIsCausal(events', T, s.settledTo, at, s.position.notional);
    assert Collect(s, events, at) == Collect(s, events', at);
  }

  lemma StepIsCausal(s: State, bar: Quote, spot: seq<Quote>, events: seq<Quote>,
                     spot': seq<Quote>, events': seq<Quote>, c: Config, T: int)
    requires UpTo(spot, T) == UpTo(spot', T) && UpTo(events, T) == UpTo(events', T)
    requires bar.at <= T && (s.position.Short? ==> s.position.entryAt <= T)
    ensures Step(s, bar, spot, events, c) == Step(s, bar, spot', events', c)
  {
    LatestIsCausal(spot, T, bar.at);
    LatestIsCausal(spot', T, bar.at);
    LatestIsCausal(events, T, bar.at);
    LatestIsCausal(events', T, bar.at);
    var price, rate := Latest(spot, bar.at), Latest(events, bar.at);
    if s.position.Short? && price.Some? && rate.Some? {
      ManageIsCausal(RollDay(s, bar.at), events, events', bar.at, bar.value, price.value.value, rate.value.value, c, T);
    }
  }

  ghost predicate AllBy(q: seq<Quote>, t: int) {
    forall k :: 0 <= k < |q| ==> q[k].at <= t
  }

  /** Everything a run has done lies at or before its last bar. */
  ghost predicate NotBefore(s: State, t: int) {
    && (s.position.Short? ==> s.position.entryAt <= t)
    && forall k :: 0 <= k < |s.trades| ==> s.trades[k].exitAt <= t
  }

  lemma {:induction false} PlayStaysInThePast(bars: seq<Quote>, spot: seq<Quote>, events: seq<Quote>, c: Config, t: int)
    requires AllBy(bars, t)
    ensures NotBefore(Play(bars, spot, events, c), t)
  {
    if bars != [] {
      PlayStaysInThePast(bars[..|bars| - 1], spot, events, c, t);
    }
  }

  lemma {:induction false} PlayIsCausal(bars: seq<Quote>, spot: seq<Quote>, events: seq<Quote>,
                                        spot': seq<Quote>, events': seq<Quote>, c: Config, T: int)
    requires UpTo(spot, T) == UpTo(spot', T) && UpTo(events, T) == UpTo(events', T)
    requires AllBy(bars, T)
    ensures Play(bars, spot, events, c) == Play(bars, spot', events', c)
  {
    if bars != [] {
      var init := bars[..|bars| - 1];
      PlayIsCausal(init, spot, events, spot', events', c, T);
      PlayStaysInThePast(init, spot, events, c, T);
      StepIsCausal(Play(init, spot, events, c), bars[|bars| - 1], spot, events, spot', events', c, T);
    }
  }

  function ClosedBy(trades: seq<Trade>, T: int): seq<Trade> {
    if trades == [] then []
    else ClosedBy(trades[..|trades| - 1], T) + if trades[|trades| - 1].exitAt <= T then [trades[|trades| - 1]] else []
  }

  lemma {:induction false} ClosedByAll(trades: seq<Trade>, T: int)
    requires forall k :: 0 <= k < |trades| ==> trades[k].exitAt <= T
    ensures ClosedBy(trades, T) == trades
  {
    if trades != [] {
      ClosedByAll(trades[..|trades| - 1], T);
    }
  }

  lemma {:induction false} UpToAll(q: seq<Quote>, T: int)
    requires AllBy(q, T)
    ensures UpTo(q, T) == q
  {
    if q != [] {
      UpToAll(q[..|q| - 1], T);
    }
  }

  /** A step closes at most one trade, and dates it with its own bar. */
  lemma StepAppends(s: State, bar: Quote, spot: seq<Quote>, events: seq<Quote>, c: Config)
    ensures var s' := Step(s, bar, spot, events, c);
      s'.trades == s.trades
      || (|s'.trades| == |s.trades| + 1 && s'.trades[..|s.trades|] == s.trades
          && s'.trades[|s.trades|].exitAt == bar.at)
  {
  }

  lemma {:induction false} ClosedByIsPrefixRun(bars: seq<Quote>, spot: seq<Quote>, events: seq<Quote>, c: Config,
                                               T: int)
    requires Ascending(bars)
    ensures ClosedBy(Play(bars, spot, events, c).trades, T) == Play(UpTo(bars, T), spot, events, c).trades
  {
    if bars != [] {
      var init, last := bars[..|bars| - 1], bars[|bars| - 1];
      var s := Play(init, spot, events, c);
      if last.at <= T {
        UpToAll(bars, T);
        PlayStaysInThePast(bars, spot, events, c, T);
        ClosedByAll(Play(bars, spot, events, c).trades, T);
      } else {
        ClosedByIsPrefixRun(init, spot, events, c, T);
        assert UpTo(bars, T) == UpTo(init, T);
        StepAppends(s, last, spot, events, c);
        var trades := Play(bars, spot, events, c).trades;
        if trades != s.trades {
          assert trades[..|trades| - 1] == s.trades;
        }
      }
    }
  }

  lemma TradesAreCausal(bars: seq<Quote>, spot: seq<Quote>, events: seq<Quote>,
                        bars': seq<Quote>, spot': seq<Quote>, events': seq<Quote>, c: Config, T: int)
    requires Ascending(bars) && Ascending(bars')
    requires UpTo(bars, T) == UpTo(bars', T) && UpTo(spot, T) == UpTo(spot', T) && UpTo(events, T) == UpTo(events', T)
    ensures ClosedBy(Play(bars, spot, events, c).trades, T) == ClosedBy(Play(bars', spot', events', c).trades, T)
    ensures Play(UpTo(bars, T), spot, events, c) == Play(UpTo(bars', T), spot', events', c)
  {
    ClosedByIsPrefixRun(bars, spot, events, c, T);
    ClosedByIsPrefixRun(bars', spot', events', c, T);
    UpToIsPast(bars, T);
    PlayIsCausal(UpTo(bars, T), spot, events, spot', events', c, T);
  }

  /** No lookahead: changing or appending any bar, spot bar or funding event after T leaves every trade closed
      by T as it was, as long as both replays return; and if one raises, then either a bar up to T made both
      raise, or it was a bar after T. */
  lemma ReplayIsCausal(bars: seq<Quote>, spot: seq<Quote>, events: seq<Quote>,
                       bars': seq<Quote>, spot': seq<Quote>, events': seq<Quote>, c: Config, T: int)
    requires Ascending(bars) && Ascending(bars')
    requires UpTo(bars, T) == UpTo(bars', T) && UpTo(spot, T) == UpTo(spot', T) && UpTo(events, T) == UpTo(events', T)
    ensures var r, r' := Replayed(bars, spot, events, c), Replayed(bars', spot', events', c);
      && (r.Some? && r'.Some? ==> ClosedBy(r.value, T) == ClosedBy(r'.value, T))
      && (r.None? ==> r'.None? || DividesAfter(bars, T, spot, events, c))
  {
    TradesAreCausal(bars, spot, events, bars', spot', events', c, T);
    if Replayed(bars, spot, events, c).None? && !DividesAfter(bars, T, spot, events, c) {
      RaisedByThen(bars, T, spot, events, c);
      RaisedPrefix(bars', T, spot', events', c);
    }
  }

  lemma {:induction false} UpToIsPast(q: seq<Quote>, T: int)
    ensures AllBy(UpTo(q, T), T)
  {
    if q != [] { UpToIsPast(q[..|q| - 1], T); }
  }

  lemma {:induction false} TradesGrow(bars: seq<Quote>, k: nat, spot: seq<Quote>, events: seq<Quote>, c: Config)
    requires k <= |bars|
    ensures Play(bars[..k], spot, events, c).trades <= Play(bars, spot, events, c).trades
  {
    if k < |bars| {
      var init := bars[..|bars| - 1];
      assert init[..k] == bars[..k];
      TradesGrow(init, k, spot, events, c);
      StepAppends(Play(init, spot, events, c), bars[|bars| - 1], spot, events, c);
    } else {
      assert bars[..k] == bars;
    }
  }

  // ----- Replays that raise -----

  /** What the replay returns: its trades, unless a division by zero ended it. */
  function Replayed(bars: seq<Quote>, spot: seq<Quote>, events: seq<Quote>, c: Config): Option<seq<Trade>> {
    var s := Play(bars, spot, events, c);
    if s.raised then None else Some(s.trades)
  }

  /** The k-th bar divides by zero: it has data, no position is open, the cooldown is over, and the entry
      decision divides. */
  predicate DividesAt(bars: seq<Quote>, k: nat, spot: seq<Quote>, events: seq<Quote>, c: Config)
    requires k < |bars|
  {
    var s, bar := Play(bars[..k], spot, events, c), bars[k];
    var price, rate := Latest(spot, bar.at), Latest(events, bar.at);
    && !s.raised && s.position.Flat? && price.Some? && rate.Some? && bar.at - s.lastSignal >= c.cooldown
    && EntryDecision(rate.value.value, BasisOf(bar.value, price.value.value), bar.value, c).DivisionByZero?
  }

  /** When an entry decision divides by zero: with funding above the threshold, if no periods are expected, or if
      a perp price of zero passes every other test, which takes an entry limit of more than 100 percent. */
  lemma DividesExactly(rate: real, perp: real, spot: real, c: Config)
    ensures EntryDecision(rate, BasisOf(perp, spot), perp, c).DivisionByZero? <==>
      && rate * ANNUALIZATION > c.fundingThreshold
      && (c.expectedPeriods != 0.0 ==>
            && NetEdge(rate, c) > 0.0 && rate > 0.0
            && perp == 0.0 && spot > 0.0 && c.maxBasisPct * c.entryBasisRatio > 100.0)
  {
    var limit := c.maxBasisPct * c.entryBasisRatio;
    assert perp == 0.0 ==> (Below(BasisOf(perp, spot), limit) <==> spot > 0.0 && limit > 100.0) by {
      if perp == 0.0 && spot > 0.0 { ZeroBasis(perp / spot, spot); }
    }
  }

  lemma ZeroBasis(q: real, spot: real)
    requires spot > 0.0 && q * spot == 0.0
    ensures Abs(q - 1.0) * 100.0 == 100.0
  {
  }

  lemma StepRaises(bars: seq<Quote>, k: nat, spot: seq<Quote>, events: seq<Quote>, c: Config)
    requires k < |bars|
    ensures Play(bars[..k + 1], spot, events, c).raised <==>
      Play(bars[..k], spot, events, c).raised || DividesAt(bars, k, spot, events, c)
  {
    assert bars[..k + 1][..k] == bars[..k];
    var s := Play(bars[..k], spot, events, c);
    assert Play(bars[..k + 1], spot, events, c) == Step(s, bars[k], spot, events, c);
  }

  /** A replay that had not raised after k bars raises exactly if a later bar divides by zero. */
  lemma {:induction false} RaisesExactly(bars: seq<Quote>, k: nat, spot: seq<Quote>, events: seq<Quote>, c: Config)
    requires k <= |bars| && Replayed(bars[..k], spot, events, c).Some?
    ensures Replayed(bars, spot, events, c).None? <==>
      exists j :: k <= j < |bars| && DividesAt(bars, j, spot, events, c)
    decreases |bars|
  {
    if k == |bars| {
      assert bars[..k] == bars;
    } else {
      var n := |bars| - 1;
      var init := bars[..n];
      assert init[..k] == bars[..k] && bars[..n + 1] == bars;
      RaisesExactly(init, k, spot, events, c);
      forall j | k <= j < n ensures DividesAt(init, j, spot, events, c) <==> DividesAt(bars, j, spot, events, c) {
        assert init[..j] == bars[..j];
      }
      StepRaises(bars, n, spot, events, c);
    }
  }

  predicate DividesAfter(bars: seq<Quote>, T: int, spot: seq<Quote>, events: seq<Quote>, c: Config) {
    exists j :: 0 <= j < |bars| && bars[j].at > T && DividesAt(bars, j, spot, events, c)
  }

  /** How many bars of an ascending list lie up to a time. */
  lemma {:induction false} UpToIsPrefix(bars: seq<Quote>, T: int) returns (k: nat)
    requires Ascending(bars)
    ensures k <= |bars| && UpTo(bars, T) == bars[..k]
    ensures forall j :: k <= j < |bars| ==> bars[j].at > T
  {
    if bars == [] {
      k := 0;
    } else if bars[|bars| - 1].at <= T {
      UpToAll(bars, T);
      k := |bars|;
    } else {
      k := UpToIsPrefix(bars[..|bars| - 1], T);
      assert bars[..|bars| - 1][..k] == bars[..k];
      forall j | k <= j < |bars| ensures bars[j].at > T {
        if j < |bars| - 1 { assert bars[..|bars| - 1][j] == bars[j]; }
      }
    }
  }

  lemma RaisedByThen(bars: seq<Quote>, T: int, spot: seq<Quote>, events: seq<Quote>, c: Config)
    requires Ascending(bars) && Replayed(bars, spot, events, c).None? && !DividesAfter(bars, T, spot, events, c)
    ensures Play(UpTo(bars, T), spot, events, c).raised
  {
    var k := UpToIsPrefix(bars, T);
    if Replayed(bars[..k], spot, events, c).Some? { RaisesExactly(bars, k, spot, events, c); }
  }

  lemma RaisedPrefix(bars: seq<Quote>, T: int, spot: seq<Quote>, events: seq<Quote>, c: Config)
    requires Ascending(bars) && Play(UpTo(bars, T), spot, events, c).raised
    ensures Replayed(bars, spot, events, c).None?
  {
    var k := UpToIsPrefix(bars, T);
    RaisedStays(bars, k, spot, events, c);
  }

  /** Once raised, the replay stays so. */
  lemma {:induction false} RaisedStays(bars: seq<Quote>, k: nat, spot: seq<Quote>, events: seq<Quote>, c: Config)
    requires k <= |bars| && Play(bars[..k], spot, events, c).raised
    ensures Play(bars, spot, events, c).raised
  {
    if k < |bars| {
      assert bars[..|bars| - 1][..k] == bars[..k];
      RaisedStays(bars[..|bars| - 1], k, spot, events, c);
    } else {
      assert bars[..k] == bars;
    }
  }

  /** If a replay returns, the replay of a prefix of its bars returns too, with a prefix of its trades. */
  lemma PrefixOfBarsPrefixOfTrades(bars: seq<Quote>, k: nat, spot: seq<Quote>, events: seq<Quote>, c: Config)
    requires k <= |bars| && Replayed(bars, spot, events, c).Some?
    ensures var r := Replayed(bars[..k], spot, events, c);
      r.Some? && r.value <= Replayed(bars, spot, events, c).value
  {
    TradesGrow(bars, k, spot, events, c);
    if Play(bars[..k], spot, events, c).raised { RaisedStays(bars, k, spot, events, c); }
  }

  // ----- PnL is conserved between the two books -----

  function Sum(xs: seq<real>): real {
    if xs == [] then 0.0 else Sum(xs[..|xs| - 1]) + xs[|xs| - 1]
  }

  function SumNet(trades: seq<Trade>): real {
    if trades == [] then 0.0 else SumNet(trades[..|trades| - 1]) + trades[|trades| - 1].net
  }

  lemma SumSnoc(xs: seq<real>, x: real)
    ensures Sum(xs + [x]) == Sum(xs) + x
  {
    assert (xs + [x])[..|xs|] == xs;
  }

  ghost predicate Balanced(s: State) {
    && Sum(s.daily) + s.dayPnl == SumNet(s.trades) + s.cumFunding
    && (s.position.Flat? ==> s.cumFunding == 0.0)
    && (s.day.None? ==> s.dayPnl == 0.0)
  }

  /** A trade's net PnL is its funding and what its closing adds to the day. */
  lemma NetOfTrade(s: State, events: seq<Quote>, at: int, perp: real, spot: real, rate: real, basis: Basis, why: Reason)
    requires s.position.Short?
    ensures var t := TradeOf(s, events, at, perp, spot, rate, basis, why);
      t.net == s.cumFunding + (t.perpPnl + t.spotPnl - t.perpFee - t.spotFee)
  {
  }

  lemma CloseBalances(s: State, t: Trade)
    requires Balanced(s) && s.day.Some? && t.net == s.cumFunding + (t.perpPnl + t.spotPnl - t.perpFee - t.spotFee)
    ensures Balanced(CloseTrade(s, t))
  {
    assert (s.trades + [t])[..|s.trades|] == s.trades;
  }

  lemma ManageBalances(s: State, events: seq<Quote>, at: int, perp: real, spot: real, rate: real, c: Config)
    requires Balanced(s) && s.position.Short? && s.day.Some?
    ensures Balanced(Manage(s, events, at, perp, spot, rate, c))
  {
    var s1, basis := Collect(s, events, at), BasisOf(perp, spot);
    assert Balanced(s1);
    match ExitReason(rate, basis, at, s.position.entryAt, c)
    case None =>
    case Some(why) =>
      NetOfTrade(s1, events, at, perp, spot, rate, basis, why);
      CloseBalances(s1, TradeOf(s1, events, at, perp, spot, rate, basis, why));
  }

  lemma RollBalances(s: State, at: int)
    requires Balanced(s)
    ensures Balanced(RollDay(s, at)) && RollDay(s, at).day.Some?
  {
    SumSnoc(s.daily, s.dayPnl);
  }

  lemma OpenBalances(s: State, at: int, perp: real, spot: real, rate: real, c: Config)
    requires Balanced(s) && s.position.Flat? && s.day.Some?
    ensures Balanced(MaybeOpen(s, at, perp, spot, rate, c))
  {
  }

  lemma StepBalances(s: State, bar: Quote, spot: seq<Quote>, events: seq<Quote>, c: Config)
    requires Balanced(s)
    ensures Balanced(Step(s, bar, spot, events, c))
  {
    var price, rate := Latest(spot, bar.at), Latest(events, bar.at);
    if !s.raised && price.Some? && rate.Some? {
      var s1 := RollDay(s, bar.at);
      RollBalances(s, bar.at);
      if s1.position.Short? {
        ManageBalances(s1, events, bar.at, bar.value, price.value.value, rate.value.value, c);
      } else {
        OpenBalances(s1, bar.at, bar.value, price.value.value, rate.value.value, c);
      }
    }
  }

  lemma {:induction false} PlayBalances(bars: seq<Quote>, spot: seq<Quote>, events: seq<Quote>, c: Config)
    ensures Balanced(Play(bars, spot, events, c))
  {
    if bars != [] {
      PlayBalances(bars[..|bars| - 1], spot, events, c);
      StepBalances(Play(bars[..|bars| - 1], spot, events, c), bars[|bars| - 1], spot, events, c);
    }
  }

  /** The daily book and the trade book agree: all daily PnL is net trade PnL, plus the funding
      accrued so far on a position that is still open. */
  lemma BooksAgree(bars: seq<Quote>, spot: seq<Quote>, events: seq<Quote>, c: Config)
    ensures var s := Play(bars, spot, events, c);
      Sum(DailyBook(s)) == SumNet(s.trades) + (if s.position.Short? then s.cumFunding else 0.0)
  {
    PlayBalances(bars, spot, events, c);
    var s := Play(bars, spot, events, c);
    SumSnoc(s.daily, s.dayPnl);
  }

  // ----- Each funding event is counted once -----

  /** The rates of the events in (since, until], the first one listed at each time. */
  function RatesBetween(events: seq<Quote>, since: int, until: int): real {
    if events == [] then 0.0
    else
      var init, e := events[..|events| - 1], events[|events| - 1];
      RatesBetween(init, since, until)
      + if since < e.at <= until && (init == [] || init[|init| - 1].at < e.at) then e.value else 0.0
  }

  /** Where the settlement loop stops: the last event in (since, until], or `since` itself. */
  lemma {:induction false} SettledReaches(events: seq<Quote>, since: int, until: int, notional: real)
    requires Ascending(events) && since <= until
    ensures var last := Settled(events, since, until, notional).1;
      && since <= last <= until
      && (forall k :: 0 <= k < |events| && events[k].at <= until ==> events[k].at <= last)
      && (last == since || (events != [] && last <= events[|events| - 1].at))
  {
    if events != [] { SettledReaches(events[..|events| - 1], since, until, notional); }
  }

  lemma Distribute(a: real, b: real, x: real)
    ensures Payment(a + b, x) == Payment(a, x) + Payment(b, x)
  {
  }

  /** The settlement loop over an ascending list pays exactly the events in (since, until]. */
  lemma {:induction false} SettledIsExact(events: seq<Quote>, since: int, until: int, notional: real)
    requires Ascending(events) && since <= until
    ensures Settled(events, since, until, notional).0 == Payment(RatesBetween(events, since, until), notional)
  {
    if events != [] {
      var init, e := events[..|events| - 1], events[|events| - 1];
      SettledIsExact(init, since, until, notional);
      SettledReaches(init, since, until, notional);
      var last := Settled(init, since, until, notional).1;
      assert e.at > last && e.at <= until
        <==> since < e.at <= until && (init == [] || init[|init| - 1].at < e.at);
      Distribute(RatesBetween(init, since, until), e.value, notional);
    }
  }

  lemma {:induction false} SettledNothing(events: seq<Quote>, since: int, until: int, notional: real)
    requires forall k :: 0 <= k < |events| ==> events[k].at <= since || events[k].at > until
    ensures Settled(events, since, until, notional) == (0.0, since)
  {
    if events != [] { SettledNothing(events[..|events| - 1], since, until, notional); }
  }

  /** Collecting at two bars is collecting once at the second: nothing is lost between bars or paid twice. */
  lemma {:induction false} SettledInTwoSteps(events: seq<Quote>, since: int, mid: int, until: int, notional: real)
    requires Ascending(events) && since <= mid <= until
    ensures var (first, last) := Settled(events, since, mid, notional);
            var (second, last') := Settled(events, last, until, notional);
      Settled(events, since, until, notional) == (first + second, last')
  {
    if events != [] {
      var init, e := events[..|events| - 1], events[|events| - 1];
      SettledInTwoSteps(init, since, mid, until, notional);
      SettledReaches(init, since, mid, notional);
      var last := Settled(init, since, mid, notional).1;
      SettledReaches(init, last, until, notional);
      if e.at > last && e.at <= mid {
        SettledNothing(init, e.at, until, notional);
        SettledNothing(init, last, until, notional);
      }
    }
  }

  ghost predicate FundedExactly(t: Trade, events: seq<Quote>) {
    t.funding == RatesBetween(events, t.entryAt, t.exitAt) * t.notional
  }

  /** `m`, not after the last bar so far, is where an open position last collected. */
  ghost predicate CollectedAt(s: State, events: seq<Quote>, m: int) {
    s.position.Short? ==>
      && s.position.entryAt <= m
      && Settled(events, s.position.entryAt, m, s.position.notional) == (s.cumFunding, s.settledTo)
  }

  /** Paid in full up to `m`, not after `t`. */
  ghost predicate Funded(s: State, events: seq<Quote>, m: int, t: int) {
    && (s.position.Short? ==> m <= t) && CollectedAt(s, events, m)
    && forall k :: 0 <= k < |s.trades| ==> FundedExactly(s.trades[k], events)
  }

  /** The time of the last bar with data, if there is one. */
  function LastData(bars: seq<Quote>, spot: seq<Quote>, events: seq<Quote>): Option<int> {
    if bars == [] then None
    else
      var bar := bars[|bars| - 1];
      if Latest(spot, bar.at).Some? && Latest(events, bar.at).Some? then Some(bar.at)
      else LastData(bars[..|bars| - 1], spot, events)
  }

  lemma CollectFunds(s: State, events: seq<Quote>, m: int, at: int)
    requires Ascending(events) && s.position.Short? && CollectedAt(s, events, m) && m <= at
    ensures CollectedAt(Collect(s, events, at), events, at)
    ensures Collect(s, events, at).cumFunding
         == RatesBetween(events, s.position.entryAt, at) * s.position.notional
  {
    SettledInTwoSteps(events, s.position.entryAt, m, at, s.position.notional);
    SettledIsExact(events, s.position.entryAt, at, s.position.notional);
  }

  lemma ManageFunds(s: State, events: seq<Quote>, m: int, at: int, perp: real, spot: real, rate: real, c: Config)
    requires Ascending(events) && s.position.Short? && CollectedAt(s, events, m) && m <= at
    requires forall k :: 0 <= k < |s.trades| ==> FundedExactly(s.trades[k], events)
    ensures Funded(Manage(s, events, at, perp, spot, rate, c), events, at, at)
  {
    CollectFunds(s, events, m, at);
    var s', s1 := Manage(s, events, at, perp, spot, rate, c), Collect(s, events, at);
    match ExitReason(rate, BasisOf(perp, spot), at, s.position.entryAt, c)
    case None => assert CollectedAt(s', events, at);
    case Some(why) =>
      assert FundedExactly(TradeOf(s1, events, at, perp, spot, rate, BasisOf(perp, spot), why), events);
      assert CollectedAt(s', events, at);
  }

  lemma StepFunds(s: State, bar: Quote, spot: seq<Quote>, events: seq<Quote>, c: Config, m: int, t: int)
    requires Ascending(events) && Funded(s, events, m, t) && t <= bar.at && (s.raised ==> s.position.Flat?)
    ensures var s' := Step(s, bar, spot, events, c);
      && Funded(s', events, if Latest(spot, bar.at).Some? && Latest(events, bar.at).Some? then bar.at else m, bar.at)
      && (s'.raised ==> s'.position.Flat?)
  {
    var price, rate := Latest(spot, bar.at), Latest(events, bar.at);
    if !s.raised && price.Some? && rate.Some? {
      var s1 := RollDay(s, bar.at);
      if s.position.Short? {
        assert CollectedAt(s1, events, m);
        ManageFunds(s1, events, m, bar.at, bar.value, price.value.value, rate.value.value, c);
      } else {
        OpenFunds(s1, events, bar.at, bar.value, price.value.value, rate.value.value, c);
      }
    }
  }

  lemma OpenFunds(s: State, events: seq<Quote>, at: int, perp: real, spot: real, rate: real, c: Config)
    requires Ascending(events) && s.position.Flat?
    requires forall k :: 0 <= k < |s.trades| ==> FundedExactly(s.trades[k], events)
    ensures Funded(MaybeOpen(s, at, perp, spot, rate, c), events, at, at)
  {
    var s' := MaybeOpen(s, at, perp, spot, rate, c);
    if s'.position.Short? { SettledNothing(events, at, at, s'.position.notional); }
  }

  lemma {:induction false} PlayFunds(bars: seq<Quote>, spot: seq<Quote>, events: seq<Quote>, c: Config, t: int)
    requires Ascending(bars) && Ascending(events) && (bars != [] ==> t == bars[|bars| - 1].at)
    ensures var s, last := Play(bars, spot, events, c), LastData(bars, spot, events);
      && Funded(s, events, if last.Some? then last.value else 0, t)
      && (s.raised ==> s.position.Flat?) && (last.None? ==> s.position.Flat?)
  {
    if bars != [] {
      var init := bars[..|bars| - 1];
      var before := if init == [] then t else init[|init| - 1].at;
      PlayFunds(init, spot, events, c, before);
      var last := LastData(init, spot, events);
      StepFunds(Play(init, spot, events, c), bars[|bars| - 1], spot, events, c,
                if last.Some? then last.value else 0, before);
    }
  }

  /** What an open position has accrued up to `m`. */
  ghost predicate AccruedExactly(s: State, events: seq<Quote>, m: int) {
    s.position.Short? ==> s.cumFunding == RatesBetween(events, s.position.entryAt, m) * s.position.notional
  }

  lemma CollectedIsExact(s: State, events: seq<Quote>, m: int)
    requires Ascending(events) && CollectedAt(s, events, m)
    ensures AccruedExactly(s, events, m)
  {
    if s.position.Short? { SettledIsExact(events, s.position.entryAt, m, s.position.notional); }
  }

  /** Each trade's funding is its notional times the rates of exactly the events in (entry, exit], and what a
      position still open has accrued is the same up to the last bar with data. */
  lemma FundingCountedOnce(bars: seq<Quote>, spot: seq<Quote>, events: seq<Quote>, c: Config)
    requires Ascending(bars) && Ascending(events)
    ensures var s, last := Play(bars, spot, events, c), LastData(bars, spot, events);
      && (forall k :: 0 <= k < |s.trades| ==> FundedExactly(s.trades[k], events))
      && (s.position.Short? ==> last.Some? && AccruedExactly(s, events, last.value))
  {
    PlayFunds(bars, spot, events, c, if bars == [] then 0 else bars[|bars| - 1].at);
    var last := LastData(bars, spot, events);
    if last.Some? { CollectedIsExact(Play(bars, spot, events, c), events, last.value); }
  }
}
