/** The loops and objects of the funding-harvest replay, proved against module FundingReplay,
    and the lookahead check run on its output. */
module FundingLoops {
  import opened Options
  import opened FundingReplay

  // ----- Binary searches -----

  method IndexAtOrBefore(times: seq<int>, t: int) returns (idx: int)
    requires forall i, j :: 0 <= i < j < |times| ==> times[i] <= times[j]
    ensures -1 <= idx < |times|
    ensures forall k :: 0 <= k <= idx ==> times[k] <= t
    ensures forall k :: idx < k < |times| ==> times[k] > t
  {
    var lo, hi := 0, |times| - 1;
    idx := -1;
    while lo <= hi
      invariant 0 <= lo <= hi + 1 <= |times| && idx == lo - 1
      invariant forall k :: 0 <= k < lo ==> times[k] <= t
      invariant forall k :: hi < k < |times| ==> times[k] > t
      decreases hi - lo
    {
      var mid := (lo + hi) / 2;
      if times[mid] <= t {
        idx := mid;
        lo := mid + 1;
      } else {
        hi := mid - 1;
      }
    }
  }

  lemma {:induction false} LatestByIndex(q: seq<Quote>, t: int, idx: int)
    requires Ascending(q) && -1 <= idx < |q|
    requires forall k :: 0 <= k <= idx ==> q[k].at <= t
    requires forall k :: idx < k < |q| ==> q[k].at > t
    ensures Latest(q, t) == if idx < 0 then None else Some(q[idx])
  {
    if q != [] {
      LatestByIndex(q[..|q| - 1], t, if idx == |q| - 1 then idx - 1 else idx);
    }
  }

  method InterpolateFundingAt(t: int, events: seq<Quote>) returns (rate: Option<real>)
    requires Ascending(events)
    ensures rate == ValueOf(Latest(events, t))
  {
    var times := seq(|events|, k requires 0 <= k < |events| => events[k].at);
    var idx := IndexAtOrBefore(times, t);
    assert forall k :: 0 <= k < |events| ==> events[k].at == times[k];
    LatestByIndex(events, t, idx);
    if idx < 0 { return None; }
    return Some(events[idx].value);
  }

  /** The spot index: close price by time, a later bar replacing an earlier one of the same time. */
  method BuildSpotIndex(bars: seq<Quote>) returns (index: map<int, real>)
    ensures Indexes(index, bars)
  {
    index := map[];
    for k := 0 to |bars|
      invariant Indexes(index, bars[..k])
    {
      assert bars[..k + 1][..k] == bars[..k];
      IndexesSnoc(index, bars[..k], bars[k]);
      assert bars[..k] + [bars[k]] == bars[..k + 1];
      index := index[bars[k].at := bars[k].value];
    }
    assert bars[..|bars|] == bars;
  }

  ghost predicate IndexesAt(index: map<int, real>, newest: Option<Quote>, t: int) {
    match newest
    case None => forall k <- index :: k > t
    case Some(q) =>
      && q.at <= t && q.at in index && index[q.at] == q.value
      && forall k <- index :: k > t || k <= q.at
  }

  /** The index answers every lookup in the past as the list of bars does. */
  ghost predicate Indexes(index: map<int, real>, bars: seq<Quote>) {
    forall t: int :: IndexesAt(index, Latest(bars, t), t)
  }

  lemma IndexesSnoc(index: map<int, real>, bars: seq<Quote>, b: Quote)
    requires Indexes(index, bars)
    ensures Indexes(index[b.at := b.value], bars + [b])
  {
    forall t: int ensures IndexesAt(index[b.at := b.value], Latest(bars + [b], t), t)
    {
      LatestSnoc(bars, b, t);
      assert IndexesAt(index, Latest(bars, t), t);
    }
  }

  ghost predicate SortedKeysOf(keys: seq<int>, index: map<int, real>) {
    Increasing(keys) && forall k :: k in keys <==> k in index
  }

  method SpotPriceAt(t: int, index: map<int, real>, keys: seq<int>, ghost bars: seq<Quote>)
    returns (price: Option<real>)
    requires Indexes(index, bars) && SortedKeysOf(keys, index)
    ensures price == ValueOf(Latest(bars, t))
  {
    var idx := IndexAtOrBefore(keys, t);
    assert IndexesAt(index, Latest(bars, t), t);
    if idx < 0 {
      assert Latest(bars, t).None?;
      return None;
    }
    assert keys[idx] in index;
    assert Latest(bars, t).Some?;
    var q := Latest(bars, t).value;
    assert q.at in keys;
    return Some(index[keys[idx]]);
  }

  ghost predicate Increasing(keys: seq<int>) {
    forall i, j :: 0 <= i < j < |keys| ==> keys[i] < keys[j]
  }

  method InsertKey(keys: seq<int>, x: int) returns (more: seq<int>)
    requires Increasing(keys) && x !in keys
    ensures Increasing(more) && forall k :: k in more <==> k in keys || k == x
  {
    var idx := IndexAtOrBefore(keys, x);
    var pos := idx + 1;
    more := keys[..pos] + [x] + keys[pos..];
    InsertedKeys(keys, x, pos);
  }

  lemma InsertedKeys(keys: seq<int>, x: int, pos: nat)
    requires Increasing(keys) && x !in keys && pos <= |keys|
    requires (forall k :: 0 <= k < pos ==> keys[k] <= x) && (forall k :: pos <= k < |keys| ==> keys[k] > x)
    ensures var more := keys[..pos] + [x] + keys[pos..];
      Increasing(more) && forall k :: k in more <==> k in keys || k == x
  {
    assert keys == keys[..pos] + keys[pos..];
    forall k | 0 <= k < pos ensures keys[k] < x { assert keys[k] in keys; }
  }

  /** The library sort of the index keys. */
  method SortKeys(index: map<int, real>) returns (keys: seq<int>)
    ensures SortedKeysOf(keys, index)
  {
    keys := [];
    var rest := index.Keys;
    while rest != {}
      invariant rest <= index.Keys && Increasing(keys)
      invariant forall k :: k in keys <==> k in index.Keys - rest
    {
      assert (forall y :: y !in rest) ==> rest == {};
      var x :| x in rest;
      keys := InsertKey(keys, x);
      rest := rest - {x};
    }
  }

  // ----- The synthetic spot ledger -----

  class SyntheticSpotLedger {
    var isOpen: bool
    var entryNotionalUsd: real
    var entryPrice: real
    var entryTs: int
    var qty: real
    var rebalanceCount: nat
    var lastRebalancePrice: real
    var lastRebalanceTs: int

    ghost function View(): Ledger
      reads this
    {
      Ledger(isOpen, entryNotionalUsd, entryPrice, entryTs, qty, rebalanceCount, lastRebalancePrice, lastRebalanceTs)
    }

    constructor ()
      ensures View() == CLOSED_LEDGER
    {
      isOpen, entryNotionalUsd, entryPrice, entryTs, qty := false, 0.0, 0.0, 0, 0.0;
      rebalanceCount, lastRebalancePrice, lastRebalanceTs := 0, 0.0, 0;
    }

    /** False: the price was refused and nothing changed. */
    method Open(notional: real, price: real, ts: int) returns (ok: bool)
      modifies this
      ensures ok == (price > 0.0)
      ensures View() == if price > 0.0 then OpenLong(notional, price, ts) else old(View())
    {
      if price <= 0.0 { return false; }
      isOpen, entryNotionalUsd, entryPrice, qty, entryTs := true, notional, price, notional / price, ts;
      lastRebalancePrice, lastRebalanceTs, rebalanceCount := price, ts, 0;
      return true;
    }

    method RebalanceTo(target: real, price: real, ts: int)
      modifies this
      ensures View() == Rebalance(old(View()), target, price, ts)
    {
      if !isOpen || price <= 0.0 { return; }
      qty := target / price;
      lastRebalancePrice, lastRebalanceTs := price, ts;
      rebalanceCount := rebalanceCount + 1;
    }

    method Close(price: real) returns (pnl: real)
      modifies this
      ensures pnl == ClosePnl(old(View()), price)
      ensures View() == old(View()).(isOpen := false)
    {
      if !isOpen { return 0.0; }
      pnl := (price - entryPrice) * qty;
      isOpen := false;
    }
  }

  class HarvestState {
    var positionOpen: bool
    var entryTs: int
    var perpEntryPrice: real
    var perpQty: real
    var perpNotional: real
    var lastRebalanceCheck: int
    var lastSignal: int
    const spot: SyntheticSpotLedger

    ghost function Holding(): Position
      reads this, spot
    {
      if positionOpen
      then Short(entryTs, perpEntryPrice, perpQty, perpNotional, lastRebalanceCheck, spot.View())
      else Flat
    }

    constructor ()
      ensures fresh(spot) && Holding() == Flat && lastSignal == 0
    {
      positionOpen, entryTs, perpEntryPrice, perpQty, perpNotional := false, 0, 0.0, 0.0, 0.0;
      lastRebalanceCheck, lastSignal := 0, 0;
      spot := new SyntheticSpotLedger();
    }

    method CheckRebalance(ts: int, spotPrice: real, c: Config)
      requires positionOpen
      modifies this`lastRebalanceCheck, spot
      ensures Holding() == CheckDrift(old(Holding()), ts, spotPrice, c)
    {
      if ts - lastRebalanceCheck > c.rebalanceCheck {
        var drift := DeltaDrift(
          Ledger(spot.isOpen, spot.entryNotionalUsd, spot.entryPrice, spot.entryTs, spot.qty, spot.rebalanceCount,
                 spot.lastRebalancePrice, spot.lastRebalanceTs), perpNotional, spotPrice);
        if drift > c.driftThreshold { spot.RebalanceTo(perpNotional, spotPrice, ts); }
        lastRebalanceCheck := ts;
      }
    }

    method Enter(ts: int, perpPrice: real, spotPrice: real, c: Config)
      requires perpPrice != 0.0 && spotPrice > 0.0
      modifies this, spot
      ensures Holding() == Short(ts, perpPrice, c.positionCap / perpPrice, c.positionCap, ts,
                                 OpenLong(c.positionCap, spotPrice, ts))
      ensures lastSignal == ts
    {
      positionOpen, entryTs, perpEntryPrice := true, ts, perpPrice;
      perpQty, perpNotional := c.positionCap / perpPrice, c.positionCap;
      lastRebalanceCheck, lastSignal := ts, ts;
      var _ := spot.Open(c.positionCap, spotPrice, ts);
    }
  }

  method CollectFunding(events: seq<Quote>, since: int, ts: int, notional: real) returns (paid: real, last: int)
    ensures (paid, last) == Settled(events, since, ts, notional)
  {
    paid, last := 0.0, since;
    for k := 0 to |events|
      invariant (paid, last) == Settled(events[..k], since, ts, notional)
    {
      SettledSnoc(events[..k], events[k], since, ts, notional);
      assert events[..k] + [events[k]] == events[..k + 1];
      if events[k].at > last && events[k].at <= ts {
        paid := paid + Payment(events[k].value, notional);
        last := events[k].at;
      }
    }
    assert events[..|events|] == events;
  }

  /** The local variables of the replay loop. */
  class ReplayRun {
    var state: HarvestState
    var trades: seq<Trade>
    var daily: seq<real>
    var currentDay: Option<int>
    var currentDayPnl: real
    var cumFunding: real
    var settledTo: int

    ghost function View(): State
      reads this, state, state.spot
    {
      State(state.Holding(), state.lastSignal, cumFunding, settledTo, trades, daily, currentDay, currentDayPnl, false)
    }

    constructor ()
      ensures fresh(state) && fresh(state.spot) && View() == START
    {
      state := new HarvestState();
      trades, daily, currentDay, currentDayPnl, cumFunding, settledTo := [], [], None, 0.0, 0.0, 0;
    }

    method TurnDay(ts: int)
      modifies this`daily, this`currentDay, this`currentDayPnl
      ensures View() == RollDay(old(View()), ts)
    {
      if currentDay.None? {
        currentDay := Some(ts / DAY);
      } else if currentDay.value != ts / DAY {
        daily, currentDay, currentDayPnl := daily + [currentDayPnl], Some(ts / DAY), 0.0;
      }
    }

    /** The record of the trade that ends at this bar. */
    method RecordTrade(events: seq<Quote>, ts: int, perp: real, spotPrice: real, rate: real, basis: Basis, why: Reason)
      returns (t: Trade)
      requires Ascending(events) && state.positionOpen
      ensures t == TradeOf(View(), events, ts, perp, spotPrice, rate, basis, why)
    {
      var perpPnl := -(perp - state.perpEntryPrice) * state.perpQty;
      assert perpPnl == PerpPnl(View().position, perp);
      var entrySpot := state.spot.entryPrice;
      var spotPnl := if state.spot.isOpen then (spotPrice - entrySpot) * state.spot.qty else 0.0;
      assert spotPnl == ClosePnl(state.spot.View(), spotPrice);
      var perpFee := RoundTripFee(state.perpNotional, PERP_FEE_BPS_PER_SIDE);
      var spotFee := RoundTripFee(state.perpNotional, SPOT_FEE_BPS_PER_SIDE);
      var net := cumFunding + perpPnl + spotPnl - perpFee - spotFee;
      var entryRate := InterpolateFundingAt(state.entryTs, events);
      t := Trade(
        state.entryTs, ts, if entryRate.Some? then entryRate.value else 0.0, rate,
        BasisOf(state.perpEntryPrice, entrySpot), basis, state.perpEntryPrice, perp, entrySpot, spotPrice,
        state.perpQty, state.perpNotional, cumFunding, perpPnl, spotPnl, perpFee, spotFee, net,
        why, ts - state.entryTs);
    }

    method CloseOut(events: seq<Quote>, ts: int, perp: real, spotPrice: real, rate: real, basis: Basis, why: Reason)
      requires Ascending(events) && state.positionOpen
      modifies this, state.spot
      ensures fresh(state) && fresh(state.spot)
      ensures View() == CloseTrade(old(View()), TradeOf(old(View()), events, ts, perp, spotPrice, rate, basis, why))
    {
      var t := RecordTrade(events, ts, perp, spotPrice, rate, basis, why);
      var _ := state.spot.Close(spotPrice);
      currentDayPnl := currentDayPnl + (t.perpPnl + t.spotPnl - t.perpFee - t.spotFee);
      trades := trades + [t];
      state := new HarvestState();
      cumFunding, settledTo := 0.0, 0;
      state.lastSignal := ts;
    }

    method OnOpenBar(events: seq<Quote>, ts: int, perp: real, spotPrice: real, rate: real, c: Config)
      requires Ascending(events) && state.positionOpen
      modifies this, state, state.spot
      ensures state == old(state) || (fresh(state) && fresh(state.spot))
      ensures View() == Manage(old(View()), events, ts, perp, spotPrice, rate, c)
    {
      var basis := BasisOf(perp, spotPrice);
      var paid, last := CollectFunding(events, settledTo, ts, state.perpNotional);
      cumFunding, currentDayPnl, settledTo := cumFunding + paid, currentDayPnl + paid, last;
      assert View() == Collect(old(View()), events, ts);
      match ExitReason(rate, basis, ts, state.entryTs, c)
      case Some(why) => CloseOut(events, ts, perp, spotPrice, rate, basis, why);
      case None => state.CheckRebalance(ts, spotPrice, c);
    }

    /** False: the entry divided by zero. */
    method OnFlatBar(ts: int, perp: real, spotPrice: real, rate: real, c: Config) returns (ok: bool)
      requires !state.positionOpen
      modifies this`cumFunding, this`settledTo, state, state.spot
      ensures ok == !MaybeOpen(old(View()), ts, perp, spotPrice, rate, c).raised
      ensures ok ==> View() == MaybeOpen(old(View()), ts, perp, spotPrice, rate, c)
    {
      if ts - state.lastSignal < c.cooldown { return true; }
      match EntryDecision(rate, BasisOf(perp, spotPrice), perp, c)
      case Refuse => return true;
      case DivisionByZero => return false;
      case Enter =>
        state.Enter(ts, perp, spotPrice, c);
        cumFunding, settledTo := 0.0, ts;
        return true;
    }
  }

  /** The replay. `raised` stands for the division by zero that ends the original. */
  method ReplayFundingHarvest(bars: seq<Quote>, spot: seq<Quote>, events: seq<Quote>, c: Config)
    returns (raised: bool, trades: seq<Trade>, daily: seq<real>)
    requires Ascending(events)
    ensures var s := Play(bars, spot, events, c);
      raised == s.raised && (!raised ==> trades == s.trades && daily == DailyBook(s))
  {
    var run := new ReplayRun();
    var index := BuildSpotIndex(spot);
    var keys := SortKeys(index);
    for k := 0 to |bars|
      invariant fresh(run) && fresh(run.state) && fresh(run.state.spot)
      invariant run.View() == Play(bars[..k], spot, events, c)
    {
      assert bars[..k + 1][..k] == bars[..k];
      var ts, perp := bars[k].at, bars[k].value;
      var spotPrice := SpotPriceAt(ts, index, keys, spot);
      var rate := InterpolateFundingAt(ts, events);
      if spotPrice.None? || rate.None? { continue; }
      run.TurnDay(ts);
      if run.state.positionOpen {
        run.OnOpenBar(events, ts, perp, spotPrice.value, rate.value, c);
      } else {
        var ok := run.OnFlatBar(ts, perp, spotPrice.value, rate.value, c);
        if !ok {
          RaisedStays(bars, k + 1, spot, events, c);
          return true, run.trades, run.daily;
        }
      }
    }
    assert bars[..|bars|] == bars;
    raised, trades, daily := false, run.trades, run.daily;
    if run.currentDay.Some? { daily := daily + [run.currentDayPnl]; }
  }

  // ----- The lookahead check -----

  /** The linear scan of the check: the first listed event of the newest non-negative time up to `t`. */
  function Scan(events: seq<Quote>, t: int): Option<Quote> {
    if events == [] then None
    else
      var p, e := Scan(events[..|events| - 1], t), events[|events| - 1];
      if e.at <= t && e.at > (if p.None? then -1 else p.value.at) then Some(e) else p
  }

  predicate IsClose(a: real, b: real) {
    var big := if Abs(a) > Abs(b) then Abs(a) else Abs(b);
    Abs(a - b) <= 0.000000001 || Abs(a - b) <= 0.000000001 * big
  }

  predicate NoLookahead(t: Trade, events: seq<Quote>) {
    Scan(events, t.entryAt).Some? && IsClose(t.entryRate, Scan(events, t.entryAt).value.value)
  }

  method SanityCheckLeakLookahead(trades: seq<Trade>, events: seq<Quote>) returns (pass: bool)
    ensures pass <==> forall k :: 0 <= k < |trades| ==> NoLookahead(trades[k], events)
  {
    for i := 0 to |trades|
      invariant forall k :: 0 <= k < i ==> NoLookahead(trades[k], events)
    {
      var prev: Option<real>, prevTs := None, -1;
      for j := 0 to |events|
        invariant ValueOf(Scan(events[..j], trades[i].entryAt)) == prev
        invariant prevTs == (if prev.None? then -1 else Scan(events[..j], trades[i].entryAt).value.at)
      {
        assert events[..j + 1][..j] == events[..j];
        if events[j].at <= trades[i].entryAt && events[j].at > prevTs {
          prevTs, prev := events[j].at, Some(events[j].value);
        }
      }
      assert events[..|events|] == events;
      if prev.None? || !IsClose(trades[i].entryRate, prev.value) { return false; }
    }
    return true;
  }

  lemma {:induction false} ScanIsLatest(events: seq<Quote>, t: int)
    requires StrictlyAscending(events) && (forall k :: 0 <= k < |events| ==> events[k].at >= 0)
    ensures Scan(events, t) == Latest(events, t)
    ensures Scan(events, t).Some? ==> Scan(events, t).value.at <= events[|events| - 1].at
  {
    if events != [] { ScanIsLatest(events[..|events| - 1], t); }
  }

  ghost predicate RatedAtEntry(s: State, events: seq<Quote>) {
    && (s.position.Short? ==> Latest(events, s.position.entryAt).Some?)
    && forall k :: 0 <= k < |s.trades| ==> ValueOf(Latest(events, s.trades[k].entryAt)) == Some(s.trades[k].entryRate)
  }

  lemma {:induction false} PlayRatesAtEntry(bars: seq<Quote>, spot: seq<Quote>, events: seq<Quote>, c: Config)
    ensures RatedAtEntry(Play(bars, spot, events, c), events)
  {
    if bars != [] { PlayRatesAtEntry(bars[..|bars| - 1], spot, events, c); }
  }

  /** The check, written independently of the replay's binary search, passes on everything it produces. */
  lemma LeakCheckPasses(bars: seq<Quote>, spot: seq<Quote>, events: seq<Quote>, c: Config)
    requires StrictlyAscending(events) && (forall k :: 0 <= k < |events| ==> events[k].at >= 0)
    ensures var trades := Play(bars, spot, events, c).trades;
      forall k :: 0 <= k < |trades| ==> NoLookahead(trades[k], events)
  {
    PlayRatesAtEntry(bars, spot, events, c);
    var trades := Play(bars, spot, events, c).trades;
    forall k | 0 <= k < |trades| ensures NoLookahead(trades[k], events) {
      ScanIsLatest(events, trades[k].entryAt);
    }
  }

  /** Strictness is needed: of two events with one time the replay reads the last, the check the first. */
  lemma DuplicateTimesDisagree(t: int)
    requires t >= 0
    ensures var events := [Quote(0, 0.001), Quote(0, 0.002)];
      Ascending(events) && ValueOf(Latest(events, t)) == Some(0.002) && ValueOf(Scan(events, t)) == Some(0.001)
      && !IsClose(0.002, 0.001)
  {
    var a, b := Quote(0, 0.001), Quote(0, 0.002);
    assert [] + [a] == [a] && [a] + [b] == [a, b];
    LatestSnoc([], a, t);
    LatestSnoc([a], b, t);
    assert [a][..0] == [] && [a, b][..1] == [a];
    assert Scan([a], t) == Some(a);
  }

  ghost predicate FirstOfItsTime(events: seq<Quote>, i: nat) {
    i < |events| && forall k :: 0 <= k < i ==> events[k].at < events[i].at
  }

  ghost predicate NewestUpTo(events: seq<Quote>, j: nat, t: int) {
    j < |events| && events[j].at <= t && forall k :: j < k < |events| ==> events[k].at > t
  }

  /** The first and the last listed event of the newest time up to `t` carry close rates. */
  ghost predicate RatesAgreeAt(events: seq<Quote>, t: int) {
    exists i: nat, j: nat :: FirstOfItsTime(events, i) && NewestUpTo(events, j, t) && events[i].at == events[j].at
      && IsClose(events[j].value, events[i].value)
  }

  lemma {:induction false} ScanIsFirst(events: seq<Quote>, t: int, j: nat) returns (i: nat)
    requires Ascending(events) && (forall k :: 0 <= k < |events| ==> events[k].at >= 0) && NewestUpTo(events, j, t)
    ensures FirstOfItsTime(events, i) && events[i].at == events[j].at && Scan(events, t) == Some(events[i])
  {
    var n := |events| - 1;
    var init := events[..n];
    if j < n {
      i := ScanIsFirst(init, t, j);
    } else if n > 0 && events[n - 1].at <= t {
      i := ScanIsFirst(init, t, n - 1);
      if events[n].at > events[n - 1].at { i := n; }
    } else {
      ScanOfFuture(init, t);
      i := n;
    }
  }

  lemma {:induction false} ScanOfFuture(events: seq<Quote>, t: int)
    requires forall k :: 0 <= k < |events| ==> events[k].at > t
    ensures Scan(events, t).None? && Latest(events, t).None?
  {
    if events != [] { ScanOfFuture(events[..|events| - 1], t); }
  }

  lemma {:induction false} LatestIsNewest(events: seq<Quote>, t: int)
    requires Ascending(events) && Latest(events, t).Some?
    ensures exists j: nat :: NewestUpTo(events, j, t) && Latest(events, t).value == events[j]
  {
    var n := |events| - 1;
    var init := events[..n];
    if events[n].at <= t {
      assert Latest(init, t).Some? ==> Latest(init, t).value.at <= events[n].at by {
        if Latest(init, t).Some? {
          LatestIsNewest(init, t);
          var j: nat :| NewestUpTo(init, j, t) && Latest(init, t).value == init[j];
          assert init[j] == events[j];
        }
      }
      assert NewestUpTo(events, n, t);
    } else {
      LatestIsNewest(init, t);
      var j: nat :| NewestUpTo(init, j, t) && Latest(init, t).value == init[j];
      assert NewestUpTo(events, j, t);
    }
  }

  /** Exactly when the check passes a trade of the replay, duplicate event times allowed: the rates of the
      first and the last event listed for the time in force at the entry are close. */
  lemma LeakCheckExactly(bars: seq<Quote>, spot: seq<Quote>, events: seq<Quote>, c: Config, k: nat)
    requires Ascending(events) && (forall m :: 0 <= m < |events| ==> events[m].at >= 0)
    requires k < |Play(bars, spot, events, c).trades|
    ensures var t := Play(bars, spot, events, c).trades[k];
      NoLookahead(t, events) <==> RatesAgreeAt(events, t.entryAt)
  {
    PlayRatesAtEntry(bars, spot, events, c);
    var t := Play(bars, spot, events, c).trades[k];
    assert ValueOf(Latest(events, t.entryAt)) == Some(t.entryRate);
    LatestIsNewest(events, t.entryAt);
    var j: nat :| NewestUpTo(events, j, t.entryAt) && Latest(events, t.entryAt).value == events[j];
    var i := ScanIsFirst(events, t.entryAt, j);
    OnlyOnePair(events, t.entryAt, i, j);
  }

  lemma OnlyOnePair(events: seq<Quote>, t: int, i: nat, j: nat)
    requires FirstOfItsTime(events, i) && NewestUpTo(events, j, t) && events[i].at == events[j].at
    ensures RatesAgreeAt(events, t) <==> IsClose(events[j].value, events[i].value)
  {
    if RatesAgreeAt(events, t) {
      var i': nat, j': nat :| FirstOfItsTime(events, i') && NewestUpTo(events, j', t) && events[i'].at == events[j'].at
        && IsClose(events[j'].value, events[i'].value);
      assert j == j';
      assert i == i';
    }
  }
}
