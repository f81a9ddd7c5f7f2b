/** What the records of the replay mean in prices and quantities: both legs, their fees, the hedge, and exactly
    when a position is opened, kept and rebalanced. */
module FundingRecords {
  import opened Options
  import opened RealArithmetic
  import opened FundingReplay
  import opened FundingDiscipline

  function Worth(quantity: real, price: real): real { quantity * price }

  // ----- The two legs of a trade -----

  /** A short position earns what the price loses. */
  predicate PerpLeg(t: Trade) {
    t.perpPnl == Worth(t.perpQty, t.entryPerp - t.exitPerp) && Worth(t.perpQty, t.entryPerp) == t.notional
  }

  /** The spot quantity was last set to the notional at `price`. */
  predicate SpotLeg(t: Trade, price: real) {
    price > 0.0 && t.spotPnl * price == Worth(t.notional, t.exitSpot - t.entrySpot)
  }

  /** 5.5 basis points a side for the perp, 10 for the spot leg. */
  predicate FeesOf(t: Trade) { t.perpFee == t.notional * 0.0011 && t.spotFee == t.notional * 0.002 }

  predicate NetOf(t: Trade) { t.net == t.funding + t.perpPnl + t.spotPnl - t.perpFee - t.spotFee }

  predicate PricedAt(t: Trade, m: Market) {
    && Some(t.entrySpot) == ValueOf(Latest(m.spot, t.entryAt)) && Some(t.exitSpot) == ValueOf(Latest(m.spot, t.exitAt))
    && Some(t.entryRate) == ValueOf(Latest(m.events, t.entryAt))
    && Some(t.exitRate) == ValueOf(Latest(m.events, t.exitAt))
  }

  ghost predicate RecordOk(t: Trade, m: Market) {
    && t.notional == m.c.positionCap && PerpLeg(t) && FeesOf(t) && NetOf(t) && PricedAt(t, m)
    && exists price :: SpotLeg(t, price)
  }

  /** An open position holds the cap at its entry price, and in spot at the price of its last rebalance. */
  predicate LegsOk(p: Position, m: Market) {
    p.Short? ==>
      && p.notional == m.c.positionCap && p.entryPrice != 0.0 && Worth(p.qty, p.entryPrice) == p.notional
      && p.spot.isOpen && p.spot.lastRebalancePrice > 0.0
      && Worth(p.spot.qty, p.spot.lastRebalancePrice) == p.notional
      && (p.spot.rebalances == 0 ==> p.spot.lastRebalancePrice == p.spot.entryPrice)
      && Some(p.spot.entryPrice) == ValueOf(Latest(m.spot, p.entryAt)) && Latest(m.events, p.entryAt).Some?
  }

  lemma Divided(amount: real, price: real)
    requires price != 0.0
    ensures Worth(amount / price, price) == amount
  {
  }

  lemma OpenLegs(s: State, at: int, perp: real, spot: real, rate: real, m: Market)
    requires s.position.Flat? && Some(spot) == ValueOf(Latest(m.spot, at)) && Latest(m.events, at).Some?
    ensures LegsOk(MaybeOpen(s, at, perp, spot, rate, m.c).position, m)
  {
    if MaybeOpen(s, at, perp, spot, rate, m.c).position.Short? {
      Divided(m.c.positionCap, perp);
      Divided(m.c.positionCap, spot);
    }
  }

  lemma DriftKeepsLegs(p: Position, at: int, spot: real, m: Market)
    requires p.Short? && LegsOk(p, m)
    ensures LegsOk(CheckDrift(p, at, spot, m.c), m)
  {
    if spot > 0.0 { Divided(p.notional, spot); }
  }

  lemma Scaled(gain: real, quantity: real, price: real)
    ensures gain * quantity * price == Worth(quantity, price) * gain
  {
  }

  /** The record of a closing position, leg by leg. */
  lemma ClosingLegs(s: State, events: seq<Quote>, at: int, perp: real, spot: real, rate: real, basis: Basis,
                    why: Reason, m: Market)
    requires s.position.Short? && LegsOk(s.position, m)
    ensures var t := TradeOf(s, events, at, perp, spot, rate, basis, why);
      && t.notional == m.c.positionCap && PerpLeg(t) && FeesOf(t) && NetOf(t)
      && SpotLeg(t, s.position.spot.lastRebalancePrice)
      && (s.position.spot.rebalances == 0 ==> SpotLeg(t, t.entrySpot))
  {
    var p := s.position;
    Scaled(spot - p.spot.entryPrice, p.spot.qty, p.spot.lastRebalancePrice);
    assert -(perp - p.entryPrice) * p.qty == Worth(p.qty, p.entryPrice - perp);
  }

  lemma StepRecords(s: State, bar: Quote, m: Market)
    requires LegsOk(s.position, m) && forall k :: 0 <= k < |s.trades| ==> RecordOk(s.trades[k], m)
    ensures var s' := Step(s, bar, m.spot, m.events, m.c);
      LegsOk(s'.position, m) && forall k :: 0 <= k < |s'.trades| ==> RecordOk(s'.trades[k], m)
  {
    var price, rate := Latest(m.spot, bar.at), Latest(m.events, bar.at);
    if !s.raised && price.Some? && rate.Some? {
      var s1, spot, r := RollDay(s, bar.at), price.value.value, rate.value.value;
      if s.position.Flat? {
        OpenLegs(s1, bar.at, bar.value, spot, r, m);
      } else {
        ManageRecords(s1, bar, spot, r, m);
      }
    }
  }

  lemma ManageRecords(s: State, bar: Quote, spot: real, rate: real, m: Market)
    requires s.position.Short? && LegsOk(s.position, m) && forall k :: 0 <= k < |s.trades| ==> RecordOk(s.trades[k], m)
    requires Some(spot) == ValueOf(Latest(m.spot, bar.at)) && Some(rate) == ValueOf(Latest(m.events, bar.at))
    ensures var s' := Manage(s, m.events, bar.at, bar.value, spot, rate, m.c);
      LegsOk(s'.position, m) && forall k :: 0 <= k < |s'.trades| ==> RecordOk(s'.trades[k], m)
  {
    var s1, basis := Collect(s, m.events, bar.at), BasisOf(bar.value, spot);
    match ExitReason(rate, basis, bar.at, s.position.entryAt, m.c)
    case None => DriftKeepsLegs(s1.position, bar.at, spot, m);
    case Some(why) =>
      ClosingLegs(s1, m.events, bar.at, bar.value, spot, rate, basis, why, m);
      assert RecordOk(TradeOf(s1, m.events, bar.at, bar.value, spot, rate, basis, why), m);
  }

  lemma {:induction false} PlayRecords(bars: seq<Quote>, m: Market)
    ensures var s := Play(bars, m.spot, m.events, m.c);
      LegsOk(s.position, m) && forall k :: 0 <= k < |s.trades| ==> RecordOk(s.trades[k], m)
  {
    if bars != [] {
      var n := |bars| - 1;
      PlayRecords(bars[..n], m);
      StepRecords(Play(bars[..n], m.spot, m.events, m.c), bars[n], m);
    }
  }

  /** Every trade of every replay: the perp leg earns its quantity times the fall of the price, so with a positive
      quantity it gains exactly if the price fell; both quantities are the cap at a price; the fees are 11 and
      20 basis points of it; the net is funding and both legs less both fees; and prices and rates are those
      in force at entry and exit. */
  lemma RecordsAddUp(bars: seq<Quote>, m: Market, k: nat)
    requires k < |Play(bars, m.spot, m.events, m.c).trades|
    ensures var t := Play(bars, m.spot, m.events, m.c).trades[k];
      && RecordOk(t, m)
      && t.perpPnl == (t.entryPerp - t.exitPerp) * t.perpQty
      && (t.perpQty > 0.0 ==> (t.perpPnl > 0.0 <==> t.exitPerp < t.entryPerp))
  {
    PlayRecords(bars, m);
    PerpGains(Play(bars, m.spot, m.events, m.c).trades[k]);
  }

  lemma PerpGains(t: Trade)
    requires PerpLeg(t)
    ensures t.perpPnl == (t.entryPerp - t.exitPerp) * t.perpQty
    ensures t.perpQty > 0.0 ==> (t.perpPnl > 0.0 <==> t.exitPerp < t.entryPerp)
  {
    if t.perpQty > 0.0 { ProductSign(t.entryPerp - t.exitPerp, t.perpQty); }
  }

  /** From `s` to `s'` a trade was closed at the bar's price, and its spot leg earns the rise of the spot price on the
      quantity set at the last rebalance, or at the entry if there was none. */
  predicate Closes(s: State, s': State, bar: Quote) {
    && s.position.Short? && s'.trades != []
    && var t, p := s'.trades[|s'.trades| - 1], s.position;
    && t.exitAt == bar.at && t.exitPerp == bar.value && t.entryAt == p.entryAt && t.entryPerp == p.entryPrice
    && SpotLeg(t, p.spot.lastRebalancePrice)
    && (p.spot.rebalances == 0 ==> t.spotPnl * t.entrySpot == (t.exitSpot - t.entrySpot) * t.notional)
  }

  /** Every step of every replay that adds a trade closes one. */
  lemma ClosingStep(bars: seq<Quote>, n: nat, m: Market)
    requires n < |bars|
    requires |Play(bars[..n + 1], m.spot, m.events, m.c).trades| > |Play(bars[..n], m.spot, m.events, m.c).trades|
    ensures Closes(Play(bars[..n], m.spot, m.events, m.c), Play(bars[..n + 1], m.spot, m.events, m.c), bars[n])
  {
    assert bars[..n + 1][..n] == bars[..n];
    PlayLegs(bars[..n], m);
    StepCloses(Play(bars[..n], m.spot, m.events, m.c), bars[n], m);
  }

  lemma PlayLegs(bars: seq<Quote>, m: Market)
    ensures LegsOk(Play(bars, m.spot, m.events, m.c).position, m)
  {
    PlayRecords(bars, m);
  }

  lemma StepCloses(s: State, bar: Quote, m: Market)
    requires LegsOk(s.position, m) && |Step(s, bar, m.spot, m.events, m.c).trades| > |s.trades|
    ensures Closes(s, Step(s, bar, m.spot, m.events, m.c), bar)
  {
    var spot, rate := Latest(m.spot, bar.at).value.value, Latest(m.events, bar.at).value.value;
    var basis := BasisOf(bar.value, spot);
    var s1 := Collect(RollDay(s, bar.at), m.events, bar.at);
    var why := ExitReason(rate, basis, bar.at, s.position.entryAt, m.c).value;
    ClosingLegs(s1, m.events, bar.at, bar.value, spot, rate, basis, why, m);
    var t := TradeOf(s1, m.events, bar.at, bar.value, spot, rate, basis, why);
    assert Step(s, bar, m.spot, m.events, m.c) == CloseTrade(s1, t);
  }

  // ----- When a position is opened -----

  lemma {:induction false} NoTradeNoSignal(bars: seq<Quote>, m: Market)
    ensures var s := Play(bars, m.spot, m.events, m.c);
      s.position.Flat? && s.trades == [] ==> s.lastSignal == 0
  {
    if bars != [] { NoTradeNoSignal(bars[..|bars| - 1], m); }
  }

  lemma DecisionExactly(rate: real, basis: Basis, perp: real, c: Config)
    ensures EntryDecision(rate, basis, perp, c).Enter? <==> MayEnter(rate, basis, c) && perp != 0.0
  {
  }

  /** A position was opened at the bar's prices exactly if the cooldown since `last` is over, the entry rules hold, and
      the perp price is not zero. */
  predicate Opens(p': Position, bar: Quote, price: real, rate: real, last: int, c: Config) {
    && (p'.Short? <==>
          bar.at - last >= c.cooldown && MayEnter(rate, BasisOf(bar.value, price), c) && bar.value != 0.0)
    && (p'.Short? ==> p'.entryAt == bar.at && p'.entryPrice == bar.value && p'.spot.entryPrice == price)
  }

  lemma StepOpens(s: State, bar: Quote, m: Market)
    requires s.position.Flat? && !s.raised && Latest(m.spot, bar.at).Some? && Latest(m.events, bar.at).Some?
    ensures Opens(Step(s, bar, m.spot, m.events, m.c).position, bar, Latest(m.spot, bar.at).value.value,
                  Latest(m.events, bar.at).value.value, s.lastSignal, m.c)
  {
    var price, rate := Latest(m.spot, bar.at).value.value, Latest(m.events, bar.at).value.value;
    DecisionExactly(rate, BasisOf(bar.value, price), bar.value, m.c);
    assert Step(s, bar, m.spot, m.events, m.c) == MaybeOpen(RollDay(s, bar.at), bar.at, bar.value, price, rate, m.c);
  }

  /** The last exit, or time zero before the first. */
  function LastExit(s: State): int { if s.trades == [] then 0 else s.trades[|s.trades| - 1].exitAt }

  lemma SignalIsLastExit(bars: seq<Quote>, m: Market)
    requires Ascending(bars) && Play(bars, m.spot, m.events, m.c).position.Flat?
    ensures Play(bars, m.spot, m.events, m.c).lastSignal == LastExit(Play(bars, m.spot, m.events, m.c))
  {
    PlayIsDisciplined(bars, m);
    NoTradeNoSignal(bars, m);
  }

  /** Without a position, a bar with data opens one if and only if the cooldown since the last exit is over (since time
      zero before the first trade), the entry rules hold, and the perp price is not zero; at the bar's own
      prices. */
  lemma EntersExactly(bars: seq<Quote>, n: nat, m: Market)
    requires Ascending(bars) && n < |bars|
    requires var s := Play(bars[..n], m.spot, m.events, m.c); s.position.Flat? && !s.raised
    requires Latest(m.spot, bars[n].at).Some? && Latest(m.events, bars[n].at).Some?
    ensures Opens(Play(bars[..n + 1], m.spot, m.events, m.c).position, bars[n],
                  Latest(m.spot, bars[n].at).value.value, Latest(m.events, bars[n].at).value.value,
                  LastExit(Play(bars[..n], m.spot, m.events, m.c)), m.c)
  {
    assert bars[..n + 1][..n] == bars[..n];
    AscendingPrefix(bars, n);
    SignalIsLastExit(bars[..n], m);
    StepOpens(Play(bars[..n], m.spot, m.events, m.c), bars[n], m);
  }

  lemma AscendingPrefix(bars: seq<Quote>, n: nat)
    requires Ascending(bars) && n <= |bars|
    ensures Ascending(bars[..n])
  {
    assert forall i :: 0 <= i < n ==> bars[..n][i] == bars[i];
  }

  // ----- When it is kept -----

  /** Nothing speaks against keeping a position: funding at or above the exit threshold and not negative, the basis
      within its limit, and not held too long. */
  predicate Sound(rate: real, basis: Basis, held: int, c: Config) {
    && rate * 1095.0 >= c.fundingExit && rate >= 0.0
    && basis.Pct? && basis.pct <= c.maxBasisPct
    && (if held > 0 then held else 0) <= c.maxHold
  }

  /** The reason names what is wrong. */
  predicate Names(why: Reason, rate: real, basis: Basis, held: int, c: Config) {
    match why
    case FundingDecay => rate * 1095.0 < c.fundingExit
    case FundingFlip => rate < 0.0
    case BasisDrift => basis.Unbounded? || basis.pct > c.maxBasisPct
    case MaxHold => (if held > 0 then held else 0) > c.maxHold
  }

  lemma ReasonsExactly(rate: real, basis: Basis, now: int, entry: int, c: Config)
    ensures ExitReason(rate, basis, now, entry, c).None? <==> Sound(rate, basis, now - entry, c)
    ensures forall why :: ExitReason(rate, basis, now, entry, c) == Some(why) ==>
      Names(why, rate, basis, now - entry, c)
  {
  }

  /** Every trade of every replay was kept at each bar with data before its exit because nothing spoke against it, and
      left for what its reason names. */
  lemma KeptWhileSound(bars: seq<Quote>, m: Market, i: nat, k: nat)
    requires Ascending(bars) && i < |Play(bars, m.spot, m.events, m.c).trades| && k < |bars|
    requires Latest(m.spot, bars[k].at).Some? && Latest(m.events, bars[k].at).Some?
    ensures var t := Play(bars, m.spot, m.events, m.c).trades[i];
      var price, rate := Latest(m.spot, bars[k].at).value.value, Latest(m.events, bars[k].at).value.value;
      t.entryAt < bars[k].at < t.exitAt ==> Sound(rate, BasisOf(bars[k].value, price), bars[k].at - t.entryAt, m.c)
  {
    TradesFollowTheRules(bars, m);
    var t := Play(bars, m.spot, m.events, m.c).trades[i];
    var price, rate := Latest(m.spot, bars[k].at).value.value, Latest(m.events, bars[k].at).value.value;
    assert TradeOk(t, bars, m);
    ReasonsExactly(rate, BasisOf(bars[k].value, price), bars[k].at, t.entryAt, m.c);
    if t.entryAt < bars[k].at < t.exitAt { assert ReasonAt(bars[k], t.entryAt, m).None?; }
  }

  lemma LeftForItsReason(bars: seq<Quote>, m: Market, i: nat)
    requires Ascending(bars) && i < |Play(bars, m.spot, m.events, m.c).trades|
    ensures var t := Play(bars, m.spot, m.events, m.c).trades[i];
      exists k :: 0 <= k < |bars| && bars[k].at == t.exitAt
        && Latest(m.spot, bars[k].at).Some? && Latest(m.events, bars[k].at).Some?
        && Names(t.reason, Latest(m.events, bars[k].at).value.value,
                 BasisOf(bars[k].value, Latest(m.spot, bars[k].at).value.value), t.exitAt - t.entryAt, m.c)
  {
    TradesFollowTheRules(bars, m);
    var t := Play(bars, m.spot, m.events, m.c).trades[i];
    assert TradeOk(t, bars, m);
    var k :| 0 <= k < |bars| && bars[k].at == t.exitAt && ReasonAt(bars[k], t.entryAt, m) == Some(t.reason);
    var price, rate := Latest(m.spot, bars[k].at).value.value, Latest(m.events, bars[k].at).value.value;
    ReasonsExactly(rate, BasisOf(bars[k].value, price), bars[k].at, t.entryAt, m.c);
  }

  // ----- When the hedge is rebalanced -----

  /** The spot leg is further from the notional than the threshold allows, measured on the spot leg; an empty or
      worthless leg counts as no distance. */
  predicate TooFar(worth: real, notional: real, threshold: real) {
    if worth > 0.0 then Abs(worth - notional) > threshold * worth else 0.0 > threshold
  }

  lemma ShareAbove(x: real, worth: real, threshold: real)
    requires worth > 0.0
    ensures Abs(x / worth) > threshold <==> Abs(x) > threshold * worth
  {
    var q := x / worth;
    assert q * worth == x;
    ProductSign(q, worth);
    ProductSign(Abs(q) - threshold, worth);
    assert Abs(q) * worth == Abs(x);
    assert (Abs(q) - threshold) * worth == Abs(x) - threshold * worth;
  }

  lemma DriftExactly(l: Ledger, notional: real, price: real, threshold: real)
    requires l.isOpen
    ensures DeltaDrift(l, notional, price) > threshold <==> TooFar(l.qty * price, notional, threshold)
  {
    var worth := l.qty * price;
    if worth > 0.0 { ShareAbove(worth - notional, worth, threshold); }
  }

  /** What a look at the hedge does. */
  predicate Looked(p: Position, p': Position, at: int, price: real, c: Config)
    requires p.Short?
  {
    var due := at - p.rebalanceCheckedAt > c.rebalanceCheck;
    var reset := due && TooFar(p.spot.qty * price, p.notional, c.driftThreshold) && price > 0.0;
    && p'.Short? && p'.rebalanceCheckedAt == (if due then at else p.rebalanceCheckedAt)
    && p'.qty == p.qty && p'.entryPrice == p.entryPrice && p'.entryAt == p.entryAt
    && (reset ==>
          && p'.spot.qty * price == p.notional && p'.spot.rebalances == p.spot.rebalances + 1
          && p'.spot.lastRebalancePrice == price && p'.spot.entryPrice == p.spot.entryPrice)
    && (!reset ==> p'.spot == p.spot)
  }

  lemma CheckLooks(p: Position, at: int, price: real, c: Config)
    requires p.Short? && p.spot.isOpen
    ensures Looked(p, CheckDrift(p, at, price, c), at, price, c)
  {
    DriftExactly(p.spot, p.notional, price, c.driftThreshold);
    if price > 0.0 { Divided(p.notional, price); }
  }

  /** For a position of any replay at a bar that does not close it: the hedge is looked at if and only if more than the
      check interval has passed since the last look, and set to the notional again if and only if it is then
      too far off and the price positive; otherwise the spot leg stays as it was. */
  lemma RebalancesExactly(bars: seq<Quote>, n: nat, m: Market)
    requires n < |bars| && Play(bars[..n], m.spot, m.events, m.c).position.Short?
    requires !Play(bars[..n], m.spot, m.events, m.c).raised
    requires Play(bars[..n + 1], m.spot, m.events, m.c).position.Short?
    requires Latest(m.spot, bars[n].at).Some? && Latest(m.events, bars[n].at).Some?
    ensures Looked(Play(bars[..n], m.spot, m.events, m.c).position, Play(bars[..n + 1], m.spot, m.events, m.c).position,
                   bars[n].at, Latest(m.spot, bars[n].at).value.value, m.c)
  {
    assert bars[..n + 1][..n] == bars[..n];
    PlayRecords(bars[..n], m);
    var s, price := Play(bars[..n], m.spot, m.events, m.c), Latest(m.spot, bars[n].at).value.value;
    StaysOpen(s, bars[n], m);
    CheckLooks(s.position, bars[n].at, price, m.c);
  }

  lemma StaysOpen(s: State, bar: Quote, m: Market)
    requires s.position.Short? && !s.raised && Latest(m.spot, bar.at).Some? && Latest(m.events, bar.at).Some?
    requires Step(s, bar, m.spot, m.events, m.c).position.Short?
    ensures Step(s, bar, m.spot, m.events, m.c).position
         == CheckDrift(s.position, bar.at, Latest(m.spot, bar.at).value.value, m.c)
  {
  }
}
