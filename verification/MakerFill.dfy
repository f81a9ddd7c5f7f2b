/** Replaying the book after a taker fill: would a passive order have been filled, and how often. Times are
    microseconds. */
module MakerFill {
  import opened Options
  import opened RealArithmetic
  import opened MakerPrice

  const TOLERANCE := 0.000001

  datatype Sample = Sample(ts: int, bid: real, ask: real, spreadBps: Option<real>)
  datatype Depth = Depth(ts: int, bid5: Option<real>, ask5: Option<real>)
  datatype Window = Window(before: seq<Sample>, replay: seq<Sample>)
  datatype Seed = Seed(order: string, symbol: string, ts: int, sell: bool, qty: real, reason: string)
  datatype Cell = Cell(allowed: seq<string>, bufferTicks: int, timeoutMs: int, guardBps: real)
  datatype Tuning = Tuning(weight: real, rejection: real)

  /** What was loaded: ticks and depth per order, tick size per symbol. */
  datatype Data = Data(windows: map<string, Window>, tickSizes: map<string, real>, depths: map<string, seq<Depth>>)

  datatype Skip = Eligible | SpreadGuard | NoBbo | TickMissing | FamilyMismatch | CrossedBook
  datatype Fill = Fill(px: real, ts: int)
  datatype Result = Result(skip: Skip, limit: Option<real>, fill: Option<Fill>, factor: Option<real>, adjusted: real)

  function Skipped(skip: Skip): Result { Result(skip, None, None, None, 0.0) }

  // ----- One fill -----

  /** The latest entry at or before `t`, the first of several with one time. */
  function LatestAt<T>(xs: seq<T>, at: T -> int, t: int): Option<T> {
    if xs == [] then None
    else
      var best := LatestAt(xs[..|xs| - 1], at, t);
      var x := xs[|xs| - 1];
      if at(x) <= t && (best.None? || at(x) > at(best.value)) then Some(x) else best
  }

  predicate InReplay(s: Sample, start: int, end: int) { start <= s.ts <= end }

  predicate Crosses(s: Sample, sell: bool, limit: real) {
    if sell then s.bid >= limit - TOLERANCE else s.ask <= limit + TOLERANCE
  }

  /** The first sample of the replay window at which the other side reaches the order. */
  function FirstCross(samples: seq<Sample>, sell: bool, limit: real, start: int, end: int): Option<Fill> {
    if samples == [] then None
    else if InReplay(samples[0], start, end) && Crosses(samples[0], sell, limit) then Some(Fill(limit, samples[0].ts))
    else FirstCross(samples[1..], sell, limit, start, end)
  }

  function SkipReason(bbo: Sample, tick: real, guardBps: real): Skip {
    if bbo.ask <= bbo.bid then CrossedBook
    else if bbo.spreadBps.Some? && bbo.spreadBps.value > guardBps then SpreadGuard
    else if tick <= 0.0 then TickMissing
    else SpreadGuard
  }

  function SeedFactor(seed: Seed, depth: Option<seq<Depth>>): Option<real> {
    if depth.None? then None
    else
      match LatestAt(depth.value, (d: Depth) => d.ts, seed.ts)
      case None => None
      case Some(d) => QueueFactor(seed.qty, if seed.sell then d.ask5 else d.bid5)
  }

  function TimeoutEnd(seed: Seed, cell: Cell): int { seed.ts + cell.timeoutMs * 1000 }

  function LimitOf(cell: Cell, seed: Seed, bbo: Sample, tick: real): Option<real> {
    CloseLimitPrice(seed.sell, Book(Some(bbo.bid), Some(bbo.ask), Some(tick)), cell.bufferTicks, cell.guardBps)
  }

  function SimulateFill(cell: Cell, seed: Seed, w: Window, tick: real, depth: Option<seq<Depth>>, u: Tuning): Result {
    if seed.reason !in cell.allowed then Skipped(FamilyMismatch)
    else
      match LatestAt(w.before + w.replay, (s: Sample) => s.ts, seed.ts)
      case None => Skipped(NoBbo)
      case Some(bbo) =>
        match LimitOf(cell, seed, bbo, tick)
        case None => Skipped(SkipReason(bbo, tick, cell.guardBps))
        case Some(limit) =>
          var fill := FirstCross(w.replay, seed.sell, limit, seed.ts, TimeoutEnd(seed, cell));
          var factor := SeedFactor(seed, depth);
          var proxy := if fill.Some? then 1.0 else 0.0;
          Result(Eligible, Some(limit), fill, factor, ApplyQueueAdjustment(proxy, factor, u.weight, u.rejection))
  }

  function SimulateSeed(cell: Cell, seed: Seed, d: Data, u: Tuning): Result {
    if seed.order !in d.windows then Skipped(NoBbo)
    else if seed.symbol !in d.tickSizes then Skipped(TickMissing)
    else
      SimulateFill(cell, seed, d.windows[seed.order], d.tickSizes[seed.symbol],
                   if seed.order in d.depths then Some(d.depths[seed.order]) else None, u)
  }

  // ----- One cell -----

  function SimulateAll(cell: Cell, seeds: seq<Seed>, d: Data, u: Tuning): seq<Result> {
    if seeds == [] then []
    else SimulateAll(cell, seeds[..|seeds| - 1], d, u) + [SimulateSeed(cell, seeds[|seeds| - 1], d, u)]
  }

  function CountSkip(rs: seq<Result>, skip: Skip): nat {
    if rs == [] then 0 else CountSkip(rs[..|rs| - 1], skip) + if rs[|rs| - 1].skip == skip then 1 else 0
  }

  function CountFills(rs: seq<Result>): nat {
    if rs == [] then 0 else CountFills(rs[..|rs| - 1]) + if rs[|rs| - 1].fill.Some? then 1 else 0
  }

  function SumAdjusted(rs: seq<Result>): real {
    if rs == [] then 0.0
    else SumAdjusted(rs[..|rs| - 1]) + if rs[|rs| - 1].skip.Eligible? then rs[|rs| - 1].adjusted else 0.0
  }

  datatype Outcome = Outcome(attempts: nat, fills: nat, spreadGuard: nat, noBbo: nat, tickMissing: nat,
                             familyMismatch: nat, crossedBook: nat, eligible: int, fillRate: real, adjustedRate: real)

  function Rate(part: real, whole: int): real { if whole > 0 then part / whole as real else 0.0 }

  function Summarise(rs: seq<Result>): Outcome {
    var guard, bbo, tick := CountSkip(rs, SpreadGuard), CountSkip(rs, NoBbo), CountSkip(rs, TickMissing);
    var family, crossed := CountSkip(rs, FamilyMismatch), CountSkip(rs, CrossedBook);
    var eligible := |rs| - (guard + bbo + tick + family + crossed);
    Outcome(|rs|, CountFills(rs), guard, bbo, tick, family, crossed, eligible,
            Rate(CountFills(rs) as real, eligible), Rate(SumAdjusted(rs), eligible))
  }

  function SimulateCell(cell: Cell, seeds: seq<Seed>, d: Data, u: Tuning): Outcome {
    Summarise(SimulateAll(cell, seeds, d, u))
  }

  // ----- What a simulated fill means -----

  lemma {:induction false} LatestMeaning<T>(xs: seq<T>, at: T -> int, t: int)
    ensures var r := LatestAt(xs, at, t);
      && (r.None? <==> forall i :: 0 <= i < |xs| ==> at(xs[i]) > t)
      && (r.Some? ==> r.value in xs && at(r.value) <= t)
      && (r.Some? ==> forall i :: 0 <= i < |xs| && at(xs[i]) <= t ==> at(xs[i]) <= at(r.value))
  {
    if xs != [] {
      LatestMeaning(xs[..|xs| - 1], at, t);
      assert forall i :: 0 <= i < |xs| - 1 ==> xs[..|xs| - 1][i] == xs[i];
    }
  }

  /** There is a fill exactly when some sample of the window crosses, and the first such sample dates it. */
  lemma {:induction false} FillExactly(samples: seq<Sample>, sell: bool, limit: real, start: int, end: int)
    ensures var r := FirstCross(samples, sell, limit, start, end);
      && (r.Some? <==>
            exists i :: 0 <= i < |samples| && InReplay(samples[i], start, end) && Crosses(samples[i], sell, limit))
      && (r.Some? ==> r.value.px == limit)
      && (r.Some? ==> exists i :: 0 <= i < |samples| && Filled(samples, i, sell, limit, start, end) == r)
  {
    if samples != [] {
      FillExactly(samples[1..], sell, limit, start, end);
      var rest := samples[1..];
      assert forall i :: 0 <= i < |rest| ==> rest[i] == samples[i + 1];
      var r := FirstCross(samples, sell, limit, start, end);
      if InReplay(samples[0], start, end) && Crosses(samples[0], sell, limit) {
        assert Filled(samples, 0, sell, limit, start, end) == r;
      } else if r.Some? {
        var i :| 0 <= i < |rest| && Filled(rest, i, sell, limit, start, end) == r;
        assert Filled(samples, i + 1, sell, limit, start, end) == r;
      }
    }
  }

  /** The fill at the i-th sample, if that is the first to cross. */
  function Filled(samples: seq<Sample>, i: nat, sell: bool, limit: real, start: int, end: int): Option<Fill>
    requires i < |samples|
  {
    if InReplay(samples[i], start, end) && Crosses(samples[i], sell, limit)
       && (forall j :: 0 <= j < i ==> !(InReplay(samples[j], start, end) && Crosses(samples[j], sell, limit)))
    then Some(Fill(limit, samples[i].ts)) else None
  }

  /** The quote an order was priced from fills it at once exactly when spread and distance together are within
      the tolerance; a tick larger than the tolerance rules that out. */
  lemma OwnQuoteDoesNotFill(cell: Cell, seed: Seed, bbo: Sample, tick: real)
    requires 0.0 < bbo.bid && 0.0 < bbo.ask && cell.bufferTicks <= MAX_TICKS
    requires LimitOf(cell, seed, bbo, tick).Some?
    ensures var book := Book(Some(bbo.bid), Some(bbo.ask), Some(tick));
      && TwoSided(book)
      && (Crosses(bbo, seed.sell, LimitOf(cell, seed, bbo, tick).value)
          <==> bbo.ask - bbo.bid + Distance(book, cell.bufferTicks) <= TOLERANCE)
      && (tick >= TOLERANCE ==> !Crosses(bbo, seed.sell, LimitOf(cell, seed, bbo, tick).value))
  {
    var book := Book(Some(bbo.bid), Some(bbo.ask), Some(tick));
    PriceExactly(seed.sell, book, cell.bufferTicks, cell.guardBps);
    ClosePriceIsPassive(seed.sell, book, cell.bufferTicks, cell.guardBps);
  }

  // ----- A longer timeout never hurts -----

  predicate Ascending(samples: seq<Sample>) {
    forall i, j :: 0 <= i < j < |samples| ==> samples[i].ts <= samples[j].ts
  }

  /** Extending the window keeps a fill, and on samples in time order keeps its time. */
  lemma {:induction false} LongerWindowKeepsFill(samples: seq<Sample>, sell: bool, limit: real, start: int, end: int,
                                                 later: int)
    requires end <= later && FirstCross(samples, sell, limit, start, end).Some?
    ensures var r, r' := FirstCross(samples, sell, limit, start, end), FirstCross(samples, sell, limit, start, later);
      r'.Some? && r'.value.px == r.value.px && (Ascending(samples) ==> r' == r)
  {
    FillExactly(samples, sell, limit, start, end);
    FillExactly(samples, sell, limit, start, later);
    var i :| 0 <= i < |samples| && InReplay(samples[i], start, end) && Crosses(samples[i], sell, limit);
    assert InReplay(samples[i], start, later);
    if Ascending(samples) { SameFirstCross(samples, sell, limit, start, end, later); }
  }

  lemma {:induction false} SameFirstCross(samples: seq<Sample>, sell: bool, limit: real, start: int, end: int,
                                          later: int)
    requires end <= later && Ascending(samples) && FirstCross(samples, sell, limit, start, end).Some?
    ensures FirstCross(samples, sell, limit, start, later) == FirstCross(samples, sell, limit, start, end)
  {
    if !(InReplay(samples[0], start, end) && Crosses(samples[0], sell, limit)) {
      var rest := samples[1..];
      FillExactly(rest, sell, limit, start, end);
      var i :| 0 <= i < |rest| && InReplay(rest[i], start, end) && Crosses(rest[i], sell, limit);
      assert samples[0].ts <= samples[i + 1].ts;
      assert Ascending(rest) by {
        assert forall j :: 0 <= j < |rest| ==> rest[j] == samples[j + 1];
      }
      SameFirstCross(rest, sell, limit, start, end, later);
    }
  }

  /** One result is as good as another: same eligibility, a fill if the other has one, no less probability. */
  predicate AtLeast(r: Result, s: Result) {
    && r.skip == s.skip && r.limit == s.limit && r.factor == s.factor
    && (s.fill.Some? ==> r.fill.Some? && r.fill.value.px == s.fill.value.px)
    && r.adjusted >= s.adjusted
  }

  lemma LongerTimeoutKeepsResult(cell: Cell, timeoutMs: int, seed: Seed, d: Data, u: Tuning)
    requires cell.timeoutMs <= timeoutMs
    ensures AtLeast(SimulateSeed(cell.(timeoutMs := timeoutMs), seed, d, u), SimulateSeed(cell, seed, d, u))
  {
    if seed.order in d.windows && seed.symbol in d.tickSizes {
      var w, tick := d.windows[seed.order], d.tickSizes[seed.symbol];
      var bbo := LatestAt(w.before + w.replay, (s: Sample) => s.ts, seed.ts);
      if seed.reason in cell.allowed && bbo.Some? && LimitOf(cell, seed, bbo.value, tick).Some? {
        var limit := LimitOf(cell, seed, bbo.value, tick).value;
        var longer := cell.(timeoutMs := timeoutMs);
        if FirstCross(w.replay, seed.sell, limit, seed.ts, TimeoutEnd(seed, cell)).Some? {
          LongerWindowKeepsFill(w.replay, seed.sell, limit, seed.ts, TimeoutEnd(seed, cell), TimeoutEnd(seed, longer));
        }
        var factor := SeedFactor(seed, if seed.order in d.depths then Some(d.depths[seed.order]) else None);
        AdjustmentOnlyLowers(1.0, factor, factor, u.weight, u.rejection);
      }
    }
  }

  // ----- Counting -----

  predicate Sound(r: Result) {
    && (r.fill.Some? ==> r.skip.Eligible?)
    && 0.0 <= r.adjusted <= (if r.fill.Some? then 1.0 else 0.0)
  }

  lemma ResultsAreSound(cell: Cell, seed: Seed, d: Data, u: Tuning)
    ensures Sound(SimulateSeed(cell, seed, d, u))
  {
    var factor := SeedFactor(seed, if seed.order in d.depths then Some(d.depths[seed.order]) else None);
    AdjustmentOnlyLowers(1.0, factor, factor, u.weight, u.rejection);
  }

  lemma {:induction false} AllSound(cell: Cell, seeds: seq<Seed>, d: Data, u: Tuning)
    ensures var rs := SimulateAll(cell, seeds, d, u); |rs| == |seeds| && forall i :: 0 <= i < |rs| ==> Sound(rs[i])
  {
    if seeds != [] {
      AllSound(cell, seeds[..|seeds| - 1], d, u);
      ResultsAreSound(cell, seeds[|seeds| - 1], d, u);
    }
  }

  /** Every attempt is eligible or skipped for one of five reasons, and only eligible ones are filled. */
  lemma {:induction false} CountsAddUp(rs: seq<Result>)
    requires forall i :: 0 <= i < |rs| ==> Sound(rs[i])
    ensures |rs| == CountSkip(rs, Eligible) + CountSkip(rs, SpreadGuard) + CountSkip(rs, NoBbo)
                    + CountSkip(rs, TickMissing) + CountSkip(rs, FamilyMismatch) + CountSkip(rs, CrossedBook)
    ensures 0.0 <= SumAdjusted(rs) <= CountFills(rs) as real
    ensures CountFills(rs) <= CountSkip(rs, Eligible)
  {
    if rs != [] { CountsAddUp(rs[..|rs| - 1]); }
  }

  lemma RateGrows(a: real, b: real, whole: int)
    requires a <= b
    ensures Rate(a, whole) <= Rate(b, whole)
  {
    if whole > 0 {
      var w := whole as real;
      var x, y := a / w, b / w;
      assert x * w == a && y * w == b;
      assert (y - x) * w == b - a;
      ProductSign(y - x, w);
    }
  }

  lemma RateOfAll(whole: int)
    ensures Rate(whole as real, whole) <= 1.0 && Rate(0.0, whole) == 0.0
  {
  }

  lemma SummaryAddsUp(rs: seq<Result>)
    requires forall i :: 0 <= i < |rs| ==> Sound(rs[i])
    ensures var o := Summarise(rs);
      && o.attempts == |rs|
      && o.attempts == o.eligible + o.spreadGuard + o.noBbo + o.tickMissing + o.familyMismatch + o.crossedBook
      && o.eligible == CountSkip(rs, Eligible) >= o.fills
      && 0.0 <= o.adjustedRate <= o.fillRate <= 1.0
  {
    CountsAddUp(rs);
    var e := CountSkip(rs, Eligible);
    RateGrows(0.0, SumAdjusted(rs), e);
    RateGrows(SumAdjusted(rs), CountFills(rs) as real, e);
    RateGrows(CountFills(rs) as real, e as real, e);
    RateOfAll(e);
  }

  /** The attempts are the eligible ones and the five kinds of skips; the rates are ordered. */
  lemma OutcomeAddsUp(cell: Cell, seeds: seq<Seed>, d: Data, u: Tuning)
    ensures var o := SimulateCell(cell, seeds, d, u);
      && o.attempts == |seeds|
      && o.attempts == o.eligible + o.spreadGuard + o.noBbo + o.tickMissing + o.familyMismatch + o.crossedBook
      && o.eligible == CountSkip(SimulateAll(cell, seeds, d, u), Eligible) >= o.fills
      && 0.0 <= o.adjustedRate <= o.fillRate <= 1.0
  {
    AllSound(cell, seeds, d, u);
    SummaryAddsUp(SimulateAll(cell, seeds, d, u));
  }

  /** The share of a part in a whole; nothing when there is no whole. */
  predicate IsShare(rate: real, part: real, whole: int) {
    if whole > 0 then rate * whole as real == part else rate == 0.0
  }

  lemma RateIsShare(part: real, whole: int)
    ensures IsShare(Rate(part, whole), part, whole)
  {
  }

  lemma SummaryShares(rs: seq<Result>)
    ensures var o := Summarise(rs);
      o.fills == CountFills(rs) && IsShare(o.fillRate, o.fills as real, o.eligible)
      && IsShare(o.adjustedRate, SumAdjusted(rs), o.eligible)
  {
    RateIsShare(CountFills(rs) as real, Summarise(rs).eligible);
    RateIsShare(SumAdjusted(rs), Summarise(rs).eligible);
  }

  /** The rates are the shares of the fills and of the adjusted probabilities in the eligible seeds. */
  lemma RatesAreShares(cell: Cell, seeds: seq<Seed>, d: Data, u: Tuning)
    ensures var o, rs := SimulateCell(cell, seeds, d, u), SimulateAll(cell, seeds, d, u);
      && o.fills == CountFills(rs) && IsShare(o.fillRate, o.fills as real, o.eligible)
      && IsShare(o.adjustedRate, SumAdjusted(rs), o.eligible)
  {
    SummaryShares(SimulateAll(cell, seeds, d, u));
  }

  lemma {:induction false} BetterResultsCountMore(rs: seq<Result>, ss: seq<Result>)
    requires |rs| == |ss| && forall i :: 0 <= i < |rs| ==> AtLeast(rs[i], ss[i])
    ensures forall k: Skip :: CountSkip(rs, k) == CountSkip(ss, k)
    ensures CountFills(rs) >= CountFills(ss) && SumAdjusted(rs) >= SumAdjusted(ss)
  {
    if rs != [] {
      var n := |rs| - 1;
      BetterResultsCountMore(rs[..n], ss[..n]);
      assert AtLeast(rs[n], ss[n]);
    }
  }

  lemma {:induction false} LongerTimeoutKeepsAll(cell: Cell, timeoutMs: int, seeds: seq<Seed>, d: Data, u: Tuning)
    requires cell.timeoutMs <= timeoutMs
    ensures var rs, ss := SimulateAll(cell.(timeoutMs := timeoutMs), seeds, d, u), SimulateAll(cell, seeds, d, u);
      |rs| == |ss| && forall i :: 0 <= i < |rs| ==> AtLeast(rs[i], ss[i])
  {
    if seeds != [] {
      LongerTimeoutKeepsAll(cell, timeoutMs, seeds[..|seeds| - 1], d, u);
      LongerTimeoutKeepsResult(cell, timeoutMs, seeds[|seeds| - 1], d, u);
    }
  }

  lemma SummaryGrows(rs: seq<Result>, ss: seq<Result>)
    requires |rs| == |ss| && forall i :: 0 <= i < |rs| ==> AtLeast(rs[i], ss[i])
    ensures var o', o := Summarise(rs), Summarise(ss);
      && o'.eligible == o.eligible && o'.attempts == o.attempts
      && o'.fills >= o.fills && o'.fillRate >= o.fillRate && o'.adjustedRate >= o.adjustedRate
  {
    BetterResultsCountMore(rs, ss);
    RateGrows(CountFills(ss) as real, CountFills(rs) as real, Summarise(rs).eligible);
    RateGrows(SumAdjusted(ss), SumAdjusted(rs), Summarise(rs).eligible);
  }

  /** Raising only the timeout changes no count but the fills, and loses none of them. */
  lemma LongerTimeoutNeverHurts(cell: Cell, timeoutMs: int, seeds: seq<Seed>, d: Data, u: Tuning)
    requires cell.timeoutMs <= timeoutMs
    ensures var o, o' := SimulateCell(cell, seeds, d, u), SimulateCell(cell.(timeoutMs := timeoutMs), seeds, d, u);
      && o'.eligible == o.eligible && o'.attempts == o.attempts
      && o'.fills >= o.fills && o'.fillRate >= o.fillRate && o'.adjustedRate >= o.adjustedRate
  {
    LongerTimeoutKeepsAll(cell, timeoutMs, seeds, d, u);
    SummaryGrows(SimulateAll(cell.(timeoutMs := timeoutMs), seeds, d, u), SimulateAll(cell, seeds, d, u));
  }

  // ----- What the queue adjustment does to a cell -----

  /** The queue is known for a fill. */
  predicate Queued(r: Result) { r.fill.Some? && r.factor.Some? }

  function Unweighted(u: Tuning): Tuning { u.(weight := 0.0) }

  lemma FactorIsShare(qty: real, depth: Option<real>)
    ensures QueueFactor(qty, depth).Some? ==> 0.0 < QueueFactor(qty, depth).value <= 1.0
  {
    if QueueFactor(qty, depth).Some? { QueueFactorMeaning(qty, depth.value, qty, depth.value); }
  }

  /** One result with and without the queue: the same but for the probability, which drops exactly for a fill with a
      known queue. */
  predicate QueueDrops(r: Result, r0: Result) {
    && r.skip == r0.skip && r.fill == r0.fill && r.factor == r0.factor
    && (if Queued(r) then r.adjusted < r0.adjusted else r.adjusted == r0.adjusted)
  }

  predicate Weighs(u: Tuning) { 0.0 < u.weight <= 1.0 && 0.0 <= u.rejection < 1.0 }

  lemma SeedFactorIsShare(seed: Seed, depth: Option<seq<Depth>>)
    ensures SeedFactor(seed, depth).Some? ==> 0.0 < SeedFactor(seed, depth).value <= 1.0
  {
    if depth.Some? {
      var best := LatestAt(depth.value, (x: Depth) => x.ts, seed.ts);
      if best.Some? { FactorIsShare(seed.qty, if seed.sell then best.value.ask5 else best.value.bid5); }
    }
  }

  /** The weight strictly lowers the probability of a fill with a factor, and of nothing else. */
  lemma ProbabilityDrops(filled: bool, factor: Option<real>, u: Tuning)
    requires Weighs(u) && (factor.Some? ==> 0.0 < factor.value <= 1.0)
    ensures var proxy := if filled then 1.0 else 0.0;
      var p, p0 := ApplyQueueAdjustment(proxy, factor, u.weight, u.rejection),
                   ApplyQueueAdjustment(proxy, factor, 0.0, u.rejection);
      if filled && factor.Some? then p < p0 else p == p0
  {
    if filled && factor.Some? {
      QueueExactly(1.0, factor.value, u.weight, u.rejection);
      QueueExactly(1.0, factor.value, 0.0, u.rejection);
      WithoutQueue(1.0, u.weight, u.rejection);
      WithoutQueue(1.0, 0.0, u.rejection);
    }
  }

  lemma FillDrops(cell: Cell, seed: Seed, w: Window, tick: real, depth: Option<seq<Depth>>, u: Tuning)
    requires Weighs(u)
    ensures QueueDrops(SimulateFill(cell, seed, w, tick, depth, u),
                       SimulateFill(cell, seed, w, tick, depth, Unweighted(u)))
  {
    SeedFactorIsShare(seed, depth);
    var r := SimulateFill(cell, seed, w, tick, depth, u);
    ProbabilityDrops(r.fill.Some?, SeedFactor(seed, depth), u);
  }

  lemma SeedDrops(cell: Cell, seed: Seed, d: Data, u: Tuning)
    requires Weighs(u)
    ensures QueueDrops(SimulateSeed(cell, seed, d, u), SimulateSeed(cell, seed, d, Unweighted(u)))
  {
    if seed.order in d.windows && seed.symbol in d.tickSizes {
      var depth := if seed.order in d.depths then Some(d.depths[seed.order]) else None;
      FillDrops(cell, seed, d.windows[seed.order], d.tickSizes[seed.symbol], depth, u);
    }
  }

  lemma {:induction false} AllDrop(cell: Cell, seeds: seq<Seed>, d: Data, u: Tuning)
    requires Weighs(u)
    ensures var rs, rs0 := SimulateAll(cell, seeds, d, u), SimulateAll(cell, seeds, d, Unweighted(u));
      |rs| == |rs0| && forall i :: 0 <= i < |rs| ==> QueueDrops(rs[i], rs0[i])
  {
    if seeds != [] {
      AllDrop(cell, seeds[..|seeds| - 1], d, u);
      SeedDrops(cell, seeds[|seeds| - 1], d, u);
    }
  }

  predicate AnyQueued(rs: seq<Result>) { exists i :: 0 <= i < |rs| && Queued(rs[i]) }

  lemma AnyQueuedSnoc(rs: seq<Result>)
    requires rs != []
    ensures AnyQueued(rs) <==> AnyQueued(rs[..|rs| - 1]) || Queued(rs[|rs| - 1])
  {
    var init := rs[..|rs| - 1];
    assert forall i :: 0 <= i < |init| ==> init[i] == rs[i];
    if AnyQueued(init) {
      var i :| 0 <= i < |init| && Queued(init[i]);
      assert Queued(rs[i]);
    }
  }

  lemma {:induction false} SumsDrop(rs: seq<Result>, rs0: seq<Result>)
    requires |rs| == |rs0| && forall i :: 0 <= i < |rs| ==> QueueDrops(rs[i], rs0[i]) && Sound(rs[i])
    ensures forall k: Skip :: CountSkip(rs, k) == CountSkip(rs0, k)
    ensures CountFills(rs) == CountFills(rs0)
    ensures if AnyQueued(rs) then SumAdjusted(rs) < SumAdjusted(rs0) else SumAdjusted(rs) == SumAdjusted(rs0)
    ensures AnyQueued(rs) ==> CountSkip(rs, Eligible) > 0
  {
    if rs != [] {
      var n := |rs| - 1;
      SumsDrop(rs[..n], rs0[..n]);
      AnyQueuedSnoc(rs);
      assert QueueDrops(rs[n], rs0[n]) && Sound(rs[n]);
    }
  }

  lemma StrictRateGrows(a: real, b: real, whole: int)
    requires a < b && whole > 0
    ensures Rate(a, whole) < Rate(b, whole)
  {
    var w := whole as real;
    var x, y := a / w, b / w;
    assert x * w == a && y * w == b;
    assert (y - x) * w == b - a;
    ProductSign(y - x, w);
  }

  lemma SummaryDrops(rs: seq<Result>, rs0: seq<Result>)
    requires |rs| == |rs0| && forall i :: 0 <= i < |rs| ==> QueueDrops(rs[i], rs0[i]) && Sound(rs[i])
    ensures var o, o0 := Summarise(rs), Summarise(rs0);
      && o == o0.(adjustedRate := o.adjustedRate)
      && o.adjustedRate <= o0.adjustedRate
      && (o.adjustedRate < o0.adjustedRate <==> AnyQueued(rs))
  {
    SumsDrop(rs, rs0);
    SummaryAddsUp(rs);
    if AnyQueued(rs) { StrictRateGrows(SumAdjusted(rs), SumAdjusted(rs0), CountSkip(rs, Eligible)); }
  }

  /** For every cell with a queue weight in (0, 1] and a base rejection in [0, 1): the queue-adjusted rate is strictly
      below the one without the weight if and only if some fill has a known queue, and equal to it otherwise;
      no count and no raw rate depends on it. */
  lemma QueueLowersTheRateExactly(cell: Cell, seeds: seq<Seed>, d: Data, u: Tuning)
    requires Weighs(u)
    ensures var o, o0 := SimulateCell(cell, seeds, d, u), SimulateCell(cell, seeds, d, Unweighted(u));
      && o == o0.(adjustedRate := o.adjustedRate)
      && o.adjustedRate <= o0.adjustedRate
      && (o.adjustedRate < o0.adjustedRate <==> AnyQueued(SimulateAll(cell, seeds, d, u)))
  {
    AllDrop(cell, seeds, d, u);
    AllSound(cell, seeds, d, u);
    SummaryDrops(SimulateAll(cell, seeds, d, u), SimulateAll(cell, seeds, d, Unweighted(u)));
  }

  // ----- Which skip, which fill, which side -----

  /** A seed is filled exactly if it was priced and some sample no earlier than the seed and at most the timeout later
      crosses the price within a millionth. */
  lemma FilledExactly(cell: Cell, seed: Seed, d: Data, u: Tuning)
    requires SimulateSeed(cell, seed, d, u).skip.Eligible?
    ensures var r := SimulateSeed(cell, seed, d, u);
      && seed.order in d.windows && r.limit.Some?
      && var replay, limit := d.windows[seed.order].replay, r.limit.value;
      && (r.fill.Some? <==>
            exists i :: 0 <= i < |replay| && seed.ts <= replay[i].ts <= seed.ts + cell.timeoutMs * 1000
              && if seed.sell then replay[i].bid >= limit - 0.000001 else replay[i].ask <= limit + 0.000001)
      && (r.fill.Some? ==> r.fill.value.px == limit)
  {
    var replay, limit := d.windows[seed.order].replay, SimulateSeed(cell, seed, d, u).limit.value;
    FillExactly(replay, seed.sell, limit, seed.ts, TimeoutEnd(seed, cell));
    assert forall i :: 0 <= i < |replay| ==>
      (InReplay(replay[i], seed.ts, TimeoutEnd(seed, cell)) <==>
         seed.ts <= replay[i].ts <= seed.ts + cell.timeoutMs * 1000);
  }

  /** Why a seed is skipped, for a positive quote whose recorded spread is its spread: a book that is locked or crossed
      before anything else, then a spread beyond the guard, then a missing tick size; a price that cannot
      be had for any other cause counts as a spread too wide. */
  lemma SkippedForItsReason(bbo: Sample, sell: bool, tick: real, bufferTicks: int, guardBps: real)
    requires 0.0 < bbo.bid && 0.0 < bbo.ask && bufferTicks <= MAX_TICKS
    requires bbo.spreadBps == Some(SpreadBps(bbo.bid, bbo.ask))
    ensures var price := CloseLimitPrice(sell, Book(Some(bbo.bid), Some(bbo.ask), Some(tick)), bufferTicks, guardBps);
      var reason := SkipReason(bbo, tick, guardBps);
      var wide := SpreadBps(bbo.bid, bbo.ask) > guardBps;
      && (bbo.ask <= bbo.bid || wide || tick <= 0.0 ==> price.None?)
      && (reason == CrossedBook <==> bbo.ask <= bbo.bid)
      && (reason == TickMissing <==> bbo.bid < bbo.ask && !wide && tick <= 0.0)
      && (reason == SpreadGuard <==> bbo.bid < bbo.ask && (wide || tick > 0.0))
  {
    PriceExactly(sell, Book(Some(bbo.bid), Some(bbo.ask), Some(tick)), bufferTicks, guardBps);
  }

  /** Before a price is asked for: an exit of another family, then no window or no quote in time, then no tick size. */
  lemma SkippedBeforePricing(cell: Cell, seed: Seed, d: Data, u: Tuning)
    ensures var r := SimulateSeed(cell, seed, d, u);
      var windowed, ticked := seed.order in d.windows, seed.symbol in d.tickSizes;
      var quoted := windowed && exists i :: 0 <= i < |Samples(d, seed)| && Samples(d, seed)[i].ts <= seed.ts;
      && (r.skip == FamilyMismatch <==> windowed && ticked && seed.reason !in cell.allowed)
      && (r.skip == NoBbo <==> !windowed || (ticked && seed.reason in cell.allowed && !quoted))
      && (windowed && !ticked ==> r.skip == TickMissing)
  {
    if seed.order in d.windows { LatestMeaning(Samples(d, seed), (s: Sample) => s.ts, seed.ts); }
  }

  /** The quotes around a seed. */
  function Samples(d: Data, seed: Seed): seq<Sample> {
    if seed.order in d.windows then d.windows[seed.order].before + d.windows[seed.order].replay else []
  }

  /** An entry with another depth on the side the order does not rest on. */
  predicate SameSide(x: Depth, y: Depth, sell: bool) {
    x.ts == y.ts && if sell then x.ask5 == y.ask5 else x.bid5 == y.bid5
  }

  lemma {:induction false} LatestOnSide(xs: seq<Depth>, ys: seq<Depth>, sell: bool, t: int)
    requires |xs| == |ys| && forall i :: 0 <= i < |xs| ==> SameSide(xs[i], ys[i], sell)
    ensures var x, y := LatestAt(xs, (e: Depth) => e.ts, t), LatestAt(ys, (e: Depth) => e.ts, t);
      (x.None? && y.None?) || (x.Some? && y.Some? && SameSide(x.value, y.value, sell))
  {
    if xs != [] {
      var n := |xs| - 1;
      LatestOnSide(xs[..n], ys[..n], sell, t);
      assert SameSide(xs[n], ys[n], sell);
    }
  }

  /** The queue is read on the side the order rests on: a sell order looks at the ask depth, a buy order at the bid
      depth, and neither at the other. */
  lemma OwnSideOnly(seed: Seed, xs: seq<Depth>, ys: seq<Depth>)
    requires |xs| == |ys| && forall i :: 0 <= i < |xs| ==> SameSide(xs[i], ys[i], seed.sell)
    ensures SeedFactor(seed, Some(xs)) == SeedFactor(seed, Some(ys))
  {
    LatestOnSide(xs, ys, seed.sell, seed.ts);
  }
}
